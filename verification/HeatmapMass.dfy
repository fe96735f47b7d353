/** How much of a gaze grid's weight survives smoothing. */
module HeatmapMass {
  import opened Basics
  import opened RangeSums
  import opened Heatmap

  function GridMass(job: Smoothing): real {
    GridSum(job.size, (y, x) => At(job.grid, y, x))
  }

  function SmoothedMass(job: Smoothing): real {
    GridSum(job.size, (y, x) => GatherAt(job, y, x))
  }

  // At least the kernel's radius away from every edge.
  predicate Interior(job: Smoothing, gy: int, gx: int) {
    && job.radius <= gy < job.size - job.radius
    && job.radius <= gx < job.size - job.radius
  }

  // ---- how much of the kernel stays on the grid ----

  function KernelRow(job: Smoothing, a: int): real {
    Sum(0, 2 * job.radius + 1, b => At(job.kernel, a, b))
  }

  function CoverageRow(job: Smoothing, a: int, gx: int): real {
    Sum(0, job.size, x => At(job.kernel, a, x - gx + job.radius))
  }

  function Coverage(job: Smoothing, gy: int, gx: int): real {
    Sum(0, job.size, y => CoverageRow(job, y - gy + job.radius, gx))
  }

  // A window of positive weights centred on cell c of a row of n cells: the part
  // that falls on the row is the whole exactly when c is away from both ends.
  lemma WindowOnRow(r: nat, n: nat, c: int, f: int -> real)
    requires 0 <= c < n
    requires forall i :: if 0 <= i <= 2 * r then f(i) > 0.0 else f(i) == 0.0
    ensures 0.0 < Sum(r - c, n + r - c, f) <= Sum(0, 2 * r + 1, f)
    ensures Sum(r - c, n + r - c, f) == Sum(0, 2 * r + 1, f) <==> r <= c < n - r
  {
    SumClip(0, 2 * r + 1, r - c, n + r - c, f);
    SumNonNegative(r - c, n + r - c, f);
    assert f(0) > 0.0 && f(r) > 0.0 && f(2 * r) > 0.0;
  }

  lemma CoverageRowShifted(job: Smoothing, a: int, gx: int)
    ensures CoverageRow(job, a, gx) ==
            Sum(job.radius - gx, job.size + job.radius - gx, b => At(job.kernel, a, b))
  {
    hide At;
    var f := (b: int) => At(job.kernel, a, b);
    var g := (x: int) => At(job.kernel, a, x - gx + job.radius);
    forall x | 0 <= x < job.size
      ensures f(x + (job.radius - gx)) == g(x)
    {
      assert x + (job.radius - gx) == x - gx + job.radius;
    }
    SumShift(0, job.size, job.radius - gx, g, f);
  }

  lemma CoverageRowBounds(job: Smoothing, a: int, gx: int)
    requires job.Valid() && 0 <= gx < job.size && 0 <= a <= 2 * job.radius
    ensures 0.0 < CoverageRow(job, a, gx) <= KernelRow(job, a)
    ensures CoverageRow(job, a, gx) == KernelRow(job, a) <==> job.radius <= gx < job.size - job.radius
  {
    CoverageRowShifted(job, a, gx);
    hide KernelSum, CoverageRow;
    var f := (b: int) => At(job.kernel, a, b);
    forall b: int
      ensures if 0 <= b <= 2 * job.radius then f(b) > 0.0 else f(b) == 0.0
    {
    }
    WindowOnRow(job.radius, job.size, gx, f);
  }

  lemma CoverageRowOutside(job: Smoothing, a: int, gx: int)
    requires job.Valid() && !(0 <= a <= 2 * job.radius)
    ensures CoverageRow(job, a, gx) == 0.0
  {
    SumZero(0, job.size, x => At(job.kernel, a, x - gx + job.radius));
  }

  lemma CoverageShifted(job: Smoothing, gy: int, gx: int)
    ensures Coverage(job, gy, gx) == Sum(job.radius - gy, job.size + job.radius - gy, a => CoverageRow(job, a, gx))
  {
    hide CoverageRow;
    var f := (a: int) => CoverageRow(job, a, gx);
    var g := (y: int) => CoverageRow(job, y - gy + job.radius, gx);
    forall y | 0 <= y < job.size
      ensures f(y + (job.radius - gy)) == g(y)
    {
      assert y + (job.radius - gy) == y - gy + job.radius;
    }
    SumShift(0, job.size, job.radius - gy, g, f);
  }

  lemma KernelSumByRows(job: Smoothing)
    requires job.Valid()
    ensures job.scale == Sum(0, 2 * job.radius + 1, a => KernelRow(job, a))
  {
    var n := 2 * job.radius + 1;
    var k := (a: int, b: int) => At(job.kernel, a, b);
    assert |job.kernel| == n;
    forall a | 0 <= a < n
      ensures RowSum(n, k, a) == KernelRow(job, a)
    {
      SumSame(0, n, b => k(a, b), b => At(job.kernel, a, b));
    }
    SumSame(0, n, a => RowSum(n, k, a), a => KernelRow(job, a));
    GridSame(n, k, (a, b) => At(job.kernel, a, b));
  }

  // The kernel centred on a cell lies on the grid in full exactly for interior cells.
  lemma CoverageBounds(job: Smoothing, gy: int, gx: int)
    requires job.Valid() && job.Inside(gy, gx)
    ensures 0.0 < Coverage(job, gy, gx) <= job.scale
    ensures Coverage(job, gy, gx) == job.scale <==> Interior(job, gy, gx)
  {
    hide KernelSum, CoverageRow, KernelRow, Symmetric, Coverage;
    var r := job.radius;
    CoverageShifted(job, gy, gx);
    KernelSumByRows(job);
    var f := (a: int) => CoverageRow(job, a, gx);
    var whole := (a: int) => KernelRow(job, a);
    forall a: int
      ensures if 0 <= a <= 2 * r then 0.0 < f(a) <= whole(a) else f(a) == 0.0
      ensures 0 <= a <= 2 * r ==> (f(a) == whole(a) <==> r <= gx < job.size - r)
    {
      if 0 <= a <= 2 * r {
        CoverageRowBounds(job, a, gx);
      } else {
        CoverageRowOutside(job, a, gx);
      }
    }
    WindowOnRow(r, job.size, gy, f);
    SumOrdered(0, 2 * r + 1, f, whole);
    if r <= gx < job.size - r {
      SumSame(0, 2 * r + 1, f, whole);
    } else {
      assert f(0) < whole(0);
    }
  }

  // ---- mass in, mass out ----

  // Everything one cell hands out.
  function Handed(job: Smoothing, gy: int, gx: int): real {
    GridSum(job.size, (y, x) => Given(job, gy, gx, y, x))
  }

  lemma RowHanded(job: Smoothing, gy: int)
    ensures GridSum(job.size, (y, x) => RowGives(job, gy, job.size, y, x)) ==
            Sum(0, job.size, gx => Handed(job, gy, gx))
  {
    hide Given;
    var f := (gx: int, y: int, x: int) => Given(job, gy, gx, y, x);
    var whole := (y: int, x: int) => RowGives(job, gy, job.size, y, x);
    var each := (gx: int) => Handed(job, gy, gx);
    forall y, x
      ensures whole(y, x) == Sum(0, job.size, i => f(i, y, x))
    {
      SumSame(0, job.size, gx => Given(job, gy, gx, y, x), i => f(i, y, x));
    }
    forall i
      ensures each(i) == GridSum(job.size, (y, x) => f(i, y, x))
    {
      GridSame(job.size, (y, x) => Given(job, gy, i, y, x), (y, x) => f(i, y, x));
    }
    GridSwap(job.size, 0, job.size, f, whole, each);
  }

  lemma SmoothedIsHanded(job: Smoothing)
    requires job.Valid()
    ensures SmoothedMass(job) == GridSum(job.size, (gy, gx) => Handed(job, gy, gx))
  {
    hide Handed, RowGives, GatherAt, Symmetric, KernelSum;
    var n := job.size;
    var f := (gy: int, y: int, x: int) => RowGives(job, gy, n, y, x);
    var whole := (y: int, x: int) => GatherAt(job, y, x);
    var handed := (gy: int, gx: int) => Handed(job, gy, gx);
    var each := (gy: int) => RowSum(n, handed, gy);
    forall y, x
      ensures whole(y, x) == Sum(0, n, i => f(i, y, x))
    {
      SpreadIsGather(job, y, x);
      SumSame(0, n, gy => RowGives(job, gy, job.size, y, x), i => f(i, y, x));
    }
    forall i
      ensures each(i) == GridSum(n, (y, x) => f(i, y, x))
    {
      RowHanded(job, i);
      SumSame(0, n, gx => Handed(job, i, gx), x => handed(i, x));
      GridSame(n, (y, x) => RowGives(job, i, job.size, y, x), (y, x) => f(i, y, x));
    }
    GridSwap(n, 0, n, f, whole, each);
  }

  function PerWeight(value: real, scale: Positive): real {
    value / scale
  }

  lemma PortionByWeight(value: real, weight: real, scale: Positive)
    ensures Portion(value, weight, scale) == Times(PerWeight(value, scale), weight)
  {
    Reorder(value, weight, scale);
  }

  lemma Reorder(value: real, weight: real, scale: Positive)
    ensures value * weight / scale == (value / scale) * weight
  {
    var q := value / scale;
    assert q * scale == value;
    assert value * weight == (q * weight) * scale;
  }

  lemma HandedIsCoverage(job: Smoothing, gy: int, gx: int)
    ensures Handed(job, gy, gx) == Times(PerWeight(At(job.grid, gy, gx), job.scale), Coverage(job, gy, gx))
  {
    hide At, Portion, PerWeight, Times;
    var n := job.size;
    var r := job.radius;
    var c := PerWeight(At(job.grid, gy, gx), job.scale);
    var k := (y: int, x: int) => At(job.kernel, y - gy + r, x - gx + r);
    var h := (y: int, x: int) => Given(job, gy, gx, y, x);
    forall y, x
      ensures h(y, x) == Times(c, k(y, x))
    {
      PortionByWeight(At(job.grid, gy, gx), At(job.kernel, y - gy + r, x - gx + r), job.scale);
    }
    GridScale(n, c, k, h);
    GridSame(n, h, (y, x) => Given(job, gy, gx, y, x));
    forall y
      ensures RowSum(n, k, y) == CoverageRow(job, y - gy + r, gx)
    {
      SumSame(0, n, x => k(y, x), x => At(job.kernel, y - gy + r, x - gx + job.radius));
    }
    SumSame(0, n, y => RowSum(n, k, y), y => CoverageRow(job, y - gy + job.radius, gx));
  }

  lemma PartOfValue(value: real, reach: real, scale: Positive)
    requires 0.0 < reach <= scale
    ensures reach == scale || value == 0.0 ==> Times(PerWeight(value, scale), reach) == value
    ensures value > 0.0 && reach < scale ==> Times(PerWeight(value, scale), reach) < value
  {
    var q := value / scale;
    assert q * scale == value;
    if value > 0.0 && reach < scale {
      assert q > 0.0;
      assert q * (scale - reach) > 0.0;
    }
  }

  lemma CellMass(job: Smoothing, gy: int, gx: int)
    requires job.Valid() && job.Inside(gy, gx)
    ensures Interior(job, gy, gx) || At(job.grid, gy, gx) == 0.0 ==>
              Handed(job, gy, gx) == At(job.grid, gy, gx)
    ensures !Interior(job, gy, gx) && At(job.grid, gy, gx) > 0.0 ==>
              Handed(job, gy, gx) < At(job.grid, gy, gx)
  {
    hide Handed, PerWeight, Times, KernelSum, Coverage;
    HandedIsCoverage(job, gy, gx);
    CoverageBounds(job, gy, gx);
    PartOfValue(At(job.grid, gy, gx), Coverage(job, gy, gx), job.scale);
  }

  // Away from the edges smoothing only moves weight around.
  lemma InteriorMassKept(job: Smoothing)
    requires job.Valid()
    requires forall gy, gx :: job.Inside(gy, gx) && At(job.grid, gy, gx) != 0.0 ==> Interior(job, gy, gx)
    ensures SmoothedMass(job) == GridMass(job)
  {
    hide Handed, KernelSum, Symmetric;
    SmoothedIsHanded(job);
    var handed, held := (gy: int, gx: int) => Handed(job, gy, gx), (y: int, x: int) => At(job.grid, y, x);
    forall gy, gx | 0 <= gy < job.size && 0 <= gx < job.size
      ensures handed(gy, gx) == held(gy, gx)
    {
      assert job.Inside(gy, gx);
      CellMass(job, gy, gx);
    }
    GridSame(job.size, handed, held);
    GridSame(job.size, handed, (gy, gx) => Handed(job, gy, gx));
    GridSame(job.size, held, (y, x) => At(job.grid, y, x));
  }

  // Smoothing never adds weight, and loses none exactly when no gazed cell is
  // within the kernel's radius of an edge.
  lemma MassNeverGrows(job: Smoothing)
    requires job.Valid()
    requires forall gy, gx :: job.Inside(gy, gx) ==> At(job.grid, gy, gx) >= 0.0
    ensures SmoothedMass(job) <= GridMass(job)
    ensures SmoothedMass(job) == GridMass(job) <==>
            forall gy, gx :: job.Inside(gy, gx) && At(job.grid, gy, gx) > 0.0 ==> Interior(job, gy, gx)
  {
    hide Handed, KernelSum, Symmetric;
    SmoothedIsHanded(job);
    var handed, held := (gy: int, gx: int) => Handed(job, gy, gx), (y: int, x: int) => At(job.grid, y, x);
    forall gy, gx | 0 <= gy < job.size && 0 <= gx < job.size
      ensures handed(gy, gx) <= held(gy, gx)
      ensures held(gy, gx) > 0.0 && !Interior(job, gy, gx) ==> handed(gy, gx) < held(gy, gx)
    {
      assert job.Inside(gy, gx);
      CellMass(job, gy, gx);
    }
    GridOrdered(job.size, handed, held);
    GridSame(job.size, handed, (gy, gx) => Handed(job, gy, gx));
    GridSame(job.size, held, (y, x) => At(job.grid, y, x));
    if forall gy, gx :: job.Inside(gy, gx) && At(job.grid, gy, gx) > 0.0 ==> Interior(job, gy, gx) {
      InteriorMassKept(job);
    } else {
      var gy, gx :| job.Inside(gy, gx) && At(job.grid, gy, gx) > 0.0 && !Interior(job, gy, gx);
      assert handed(gy, gx) < held(gy, gx);
    }
  }
}
