/** Gaussian smoothing of a gaze grid: the sparse spread-form loop and the convolution it computes. */
module Heatmap {
  import opened RangeSums
  import opened Sampling

  type Grid = seq<seq<real>>

  type Positive = v: real | v > 0.0 witness 1.0

  predicate Square(m: Grid, n: nat) {
    |m| == n && forall y :: 0 <= y < n ==> |m[y]| == n
  }

  // The value of a cell; nothing lies outside the matrix.
  function At(m: Grid, y: int, x: int): real {
    if 0 <= y < |m| && 0 <= x < |m[y]| then m[y][x] else 0.0
  }

  // What a smoothing kernel needs: an odd square of positive weights that reads
  // the same from either corner.
  predicate Symmetric(k: Grid, radius: nat) {
    && Square(k, 2 * radius + 1)
    && (forall a, b :: 0 <= a < |k| && 0 <= b < |k| ==> At(k, a, b) > 0.0)
    && (forall a, b :: 0 <= a < |k| && 0 <= b < |k| ==> At(k, a, b) == At(k, 2 * radius - a, 2 * radius - b))
  }

  function DistanceSquared(dy: int, dx: int): int {
    dx * dx + dy * dy
  }

  function Bell(exp: Exp, sigma: real, distance: int): (w: real)
    requires sigma != 0.0
    ensures w > 0.0
  {
    exp(-((distance as real) / (2.0 * sigma * sigma)))
  }

  function GaussianKernel(exp: Exp, radius: nat, sigma: real): (k: Grid)
    requires sigma != 0.0
    ensures Square(k, 2 * radius + 1)
  {
    seq(2 * radius + 1, a => seq(2 * radius + 1, b => Bell(exp, sigma, DistanceSquared(a - radius, b - radius))))
  }

  lemma OppositeDistance(dy: int, dx: int)
    ensures DistanceSquared(dy, dx) == DistanceSquared(-dy, -dx)
  {}

  lemma GaussianIsSymmetric(exp: Exp, radius: nat, sigma: real)
    requires sigma != 0.0
    ensures Symmetric(GaussianKernel(exp, radius, sigma), radius)
  {
    hide Bell, DistanceSquared;
    var k := GaussianKernel(exp, radius, sigma);
    forall a, b | 0 <= a < |k| && 0 <= b < |k|
      ensures At(k, a, b) > 0.0 && At(k, a, b) == At(k, 2 * radius - a, 2 * radius - b)
    {
      OppositeDistance(a - radius, b - radius);
      assert -(a - radius) == 2 * radius - a - radius && -(b - radius) == 2 * radius - b - radius;
      assert k[a][b] == Bell(exp, sigma, DistanceSquared(a - radius, b - radius));
    }
  }

  function KernelSum(k: Grid): real {
    GridSum(|k|, (a, b) => At(k, a, b))
  }

  lemma KernelSumPositive(k: Grid, radius: nat)
    requires Symmetric(k, radius)
    ensures KernelSum(k) > 0.0
  {
    var f := (a: int, b: int) => At(k, a, b);
    forall a | 0 <= a < |k|
      ensures RowSum(|k|, f, a) > 0.0
    {
      var row := (b: int) => f(a, b);
      assert row(0) > 0.0;
      SumNonNegative(0, |k|, row);
      SumSame(0, |k|, row, b => f(a, b));
    }
    var rows := (a: int) => RowSum(|k|, f, a);
    assert rows(0) > 0.0;
    SumNonNegative(0, |k|, rows);
    SumSame(0, |k|, rows, a => RowSum(|k|, f, a));
  }

  // One smoothing job: a square gaze grid and a kernel with the sum of its weights.
  datatype Smoothing = Smoothing(grid: Grid, size: nat, kernel: Grid, radius: nat, scale: Positive) {
    predicate Valid() {
      && Square(grid, size)
      && Symmetric(kernel, radius)
      && scale == KernelSum(kernel)
    }

    predicate Inside(y: int, x: int) {
      0 <= y < size && 0 <= x < size
    }
  }

  function Portion(value: real, weight: real, scale: Positive): real {
    value * weight / scale
  }

  lemma PortionOfNothing(value: real, weight: real, scale: Positive)
    ensures Portion(0.0, weight, scale) == 0.0 && Portion(value, 0.0, scale) == 0.0
  {}

  // A source cell's value weighted by one kernel cell.
  function Weighed(job: Smoothing, gy: int, gx: int, ky: int, kx: int): real {
    Portion(At(job.grid, gy, gx), At(job.kernel, ky, kx), job.scale)
  }

  // ---- spread form: what each source cell hands to a target ----

  function Given(job: Smoothing, gy: int, gx: int, y: int, x: int): real {
    Weighed(job, gy, gx, y - gy + job.radius, x - gx + job.radius)
  }

  // What the first m cells of a source row hand to a target.
  function RowGives(job: Smoothing, gy: int, m: int, y: int, x: int): real {
    Sum(0, m, gx => Given(job, gy, gx, y, x))
  }

  // What the first m source rows hand to a target.
  function RowsGive(job: Smoothing, m: int, y: int, x: int): real {
    Sum(0, m, gy => RowGives(job, gy, job.size, y, x))
  }

  function SpreadAt(job: Smoothing, y: int, x: int): real {
    RowsGive(job, job.size, y, x)
  }

  lemma RowGivesNext(job: Smoothing, gy: int, m: nat, y: int, x: int)
    ensures RowGives(job, gy, 0, y, x) == 0.0
    ensures RowGives(job, gy, m + 1, y, x) == RowGives(job, gy, m, y, x) + Given(job, gy, m, y, x)
  {}

  lemma RowsGiveNext(job: Smoothing, m: nat, y: int, x: int)
    ensures RowsGive(job, 0, y, x) == 0.0
    ensures RowsGive(job, m + 1, y, x) == RowsGive(job, m, y, x) + RowGives(job, m, job.size, y, x)
  {}

  // ---- gather form: the convolution as a textbook states it ----

  function GatherRow(job: Smoothing, gy: int, ky: int, x: int): real {
    Sum(0, 2 * job.radius + 1, kx => Weighed(job, gy, x + kx - job.radius, ky, kx))
  }

  function GatherAt(job: Smoothing, y: int, x: int): real {
    Sum(0, 2 * job.radius + 1, ky => GatherRow(job, y + ky - job.radius, ky, x))
  }

  lemma KernelTurned(job: Smoothing, a: int, b: int)
    requires job.Valid()
    ensures At(job.kernel, a, b) == At(job.kernel, 2 * job.radius - a, 2 * job.radius - b)
  {}

  // Seen from the target, the kernel turned around is the kernel itself.
  lemma GivenTurned(job: Smoothing, gy: int, gx: int, y: int, x: int)
    requires job.Valid()
    ensures Given(job, gy, gx, y, x) ==
            Weighed(job, gy, gx, gy - y + job.radius, gx - x + job.radius)
    ensures Given(job, gy, gx, y, x) != 0.0 ==>
              && job.Inside(gy, gx)
              && y - job.radius <= gy <= y + job.radius
              && x - job.radius <= gx <= x + job.radius
  {
    hide Portion;
    var r := job.radius;
    KernelTurned(job, y - gy + r, x - gx + r);
    assert 2 * r - (y - gy + r) == gy - y + r && 2 * r - (x - gx + r) == gx - x + r;
    PortionOfNothing(At(job.grid, gy, gx), At(job.kernel, gy - y + r, gx - x + r), job.scale);
  }

  lemma RowWindow(job: Smoothing, gy: int, y: int, x: int)
    requires job.Valid()
    ensures RowGives(job, gy, job.size, y, x) ==
            Sum(x - job.radius, x + job.radius + 1,
                gx => Weighed(job, gy, gx, gy - y + job.radius, gx - x + job.radius))
  {
    hide Weighed, Given, Symmetric, KernelSum, Square;
    var r := job.radius;
    var f := (gx: int) => Given(job, gy, gx, y, x);
    var g := (gx: int) => Weighed(job, gy, gx, gy - y + r, gx - x + r);
    forall gx: int
      ensures f(gx) == g(gx)
      ensures f(gx) != 0.0 ==> 0 <= gx < job.size && x - r <= gx < x + r + 1
    {
      GivenTurned(job, gy, gx, y, x);
    }
    SumWindow(0, job.size, x - r, x + r + 1, f);
    SumSame(x - r, x + r + 1, f, g);
  }

  lemma RowIsGathered(job: Smoothing, gy: int, y: int, x: int)
    requires job.Valid()
    ensures RowGives(job, gy, job.size, y, x) == GatherRow(job, gy, gy - y + job.radius, x)
  {
    hide Weighed, RowGives, Smoothing.Valid;
    RowWindow(job, gy, y, x);
    var r := job.radius;
    var f := (gx: int) => Weighed(job, gy, gx, gy - y + r, gx - x + r);
    var g := (kx: int) => Weighed(job, gy, x + kx - r, gy - y + r, kx);
    forall kx | 0 <= kx < 2 * r + 1
      ensures f(kx + (x - r)) == g(kx)
    {
      assert kx + (x - r) == x + kx - r && kx + (x - r) - x + r == kx;
    }
    SumShift(0, 2 * r + 1, x - r, g, f);
  }

  lemma WeighedOutside(job: Smoothing, gy: int, gx: int, ky: int, kx: int)
    requires job.Valid()
    requires !job.Inside(gy, gx) || ky < 0 || ky > 2 * job.radius || kx < 0 || kx > 2 * job.radius
    ensures Weighed(job, gy, gx, ky, kx) == 0.0
  {
    hide Portion, Symmetric;
    PortionOfNothing(At(job.grid, gy, gx), At(job.kernel, ky, kx), job.scale);
    assert Symmetric(job.kernel, job.radius);
    assert Square(job.grid, job.size);
    if job.Inside(gy, gx) {
      assert At(job.kernel, ky, kx) == 0.0 by {
        OutsideKernel(job.kernel, job.radius, ky, kx);
      }
    }
  }

  lemma OutsideKernel(k: Grid, radius: nat, ky: int, kx: int)
    requires Symmetric(k, radius)
    requires ky < 0 || ky > 2 * radius || kx < 0 || kx > 2 * radius
    ensures At(k, ky, kx) == 0.0
  {}

  lemma GatherRowOutside(job: Smoothing, gy: int, ky: int, x: int)
    requires job.Valid()
    requires gy < 0 || gy >= job.size || ky < 0 || ky > 2 * job.radius
    ensures GatherRow(job, gy, ky, x) == 0.0
  {
    hide Weighed;
    var g := (kx: int) => Weighed(job, gy, x + kx - job.radius, ky, kx);
    forall kx: int
      ensures g(kx) == 0.0
    {
      WeighedOutside(job, gy, x + kx - job.radius, ky, kx);
    }
    SumZero(0, 2 * job.radius + 1, g);
  }

  // Handing every cell's value outward computes the convolution.
  lemma SpreadIsGather(job: Smoothing, y: int, x: int)
    requires job.Valid()
    ensures SpreadAt(job, y, x) == GatherAt(job, y, x)
  {
    hide RowGives, GatherRow;
    var r := job.radius;
    var f := (gy: int) => RowGives(job, gy, job.size, y, x);
    forall gy: int
      ensures f(gy) == GatherRow(job, gy, gy - y + r, x)
      ensures f(gy) != 0.0 ==> 0 <= gy < job.size && y - r <= gy < y + r + 1
    {
      RowIsGathered(job, gy, y, x);
      if !(0 <= gy < job.size && y - r <= gy < y + r + 1) {
        GatherRowOutside(job, gy, gy - y + r, x);
      }
    }
    SumWindow(0, job.size, y - r, y + r + 1, f);
    var g := (ky: int) => GatherRow(job, y + ky - r, ky, x);
    SumShift(0, 2 * r + 1, y - r, g, f);
    SumSame(0, job.size, f, gy => RowGives(job, gy, job.size, y, x));
    SumSame(0, 2 * r + 1, g, ky => GatherRow(job, y + ky - job.radius, ky, x));
  }

  // ---- the sparse loop ----

  // Hands one cell's value to every target the kernel reaches.
  method SpreadCell(job: Smoothing, gy: nat, gx: nat, smoothed: array2<real>)
    requires job.Valid() && job.Inside(gy, gx)
    requires smoothed.Length0 == smoothed.Length1 == job.size
    modifies smoothed
    ensures forall y, x :: job.Inside(y, x) ==>
      smoothed[y, x] == old(smoothed[y, x]) + Given(job, gy, gx, y, x)
  {
    hide Portion, At, Symmetric, KernelSum;
    var r := job.radius;
    forall y, x | job.Inside(y, x) && (y - gy + r < 0 || y - gy + r > 2 * r || x - gx + r < 0 || x - gx + r > 2 * r)
      ensures Given(job, gy, gx, y, x) == 0.0
    {
      WeighedOutside(job, gy, gx, y - gy + r, x - gx + r);
    }
    for ky := 0 to 2 * r + 1
      invariant forall y, x :: job.Inside(y, x) ==>
        smoothed[y, x] == old(smoothed[y, x]) + if y - gy + r < ky then Given(job, gy, gx, y, x) else 0.0
    {
      var sy := gy + ky - r;
      if !(0 <= sy < job.size) {
        continue;
      }
      for kx := 0 to 2 * r + 1
        invariant forall y, x :: job.Inside(y, x) ==>
          smoothed[y, x] == old(smoothed[y, x]) +
          if y < sy || (y == sy && x - gx + r < kx) then Given(job, gy, gx, y, x) else 0.0
      {
        var sx := gx + kx - r;
        if !(0 <= sx < job.size) {
          continue;
        }
        smoothed[sy, sx] := smoothed[sy, sx] + Weighed(job, gy, gx, ky, kx);
      }
    }
  }

  // Skips empty cells; every other cell hands its value outward.
  method Spread(job: Smoothing) returns (smoothed: array2<real>)
    requires job.Valid()
    ensures smoothed.Length0 == smoothed.Length1 == job.size
    ensures forall y, x :: job.Inside(y, x) ==> smoothed[y, x] == GatherAt(job, y, x)
  {
    hide Portion, Symmetric, KernelSum, Given, RowGives, RowsGive, GatherAt;
    smoothed := new real[job.size, job.size]((y, x) => 0.0);
    forall y, x
      ensures RowsGive(job, 0, y, x) == 0.0
    {
      RowsGiveNext(job, 0, y, x);
    }
    for gy := 0 to job.size
      invariant fresh(smoothed)
      invariant forall y, x :: job.Inside(y, x) ==> smoothed[y, x] == RowsGive(job, gy, y, x)
    {
      forall y, x
        ensures RowGives(job, gy, 0, y, x) == 0.0
      {
        RowGivesNext(job, gy, 0, y, x);
      }
      for gx := 0 to job.size
        invariant fresh(smoothed)
        invariant forall y, x :: job.Inside(y, x) ==>
          smoothed[y, x] == RowsGive(job, gy, y, x) + RowGives(job, gy, gx, y, x)
      {
        forall y, x
          ensures RowGives(job, gy, gx + 1, y, x) == RowGives(job, gy, gx, y, x) + Given(job, gy, gx, y, x)
          ensures job.grid[gy][gx] == 0.0 ==> Given(job, gy, gx, y, x) == 0.0
        {
          RowGivesNext(job, gy, gx, y, x);
          if job.grid[gy][gx] == 0.0 {
            EmptyGivesNothing(job, gy, gx, y, x);
          }
        }
        if job.grid[gy][gx] == 0.0 {
          continue;
        }
        SpreadCell(job, gy, gx, smoothed);
      }
      forall y, x
        ensures RowsGive(job, gy + 1, y, x) == RowsGive(job, gy, y, x) + RowGives(job, gy, job.size, y, x)
      {
        RowsGiveNext(job, gy, y, x);
      }
    }
    forall y, x
      ensures RowsGive(job, job.size, y, x) == GatherAt(job, y, x)
    {
      SpreadIsGather(job, y, x);
    }
  }

  lemma EmptyGivesNothing(job: Smoothing, gy: int, gx: int, y: int, x: int)
    requires At(job.grid, gy, gx) == 0.0
    ensures Given(job, gy, gx, y, x) == 0.0
  {
    PortionOfNothing(0.0, At(job.kernel, y - gy + job.radius, x - gx + job.radius), job.scale);
  }
}
