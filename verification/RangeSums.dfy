/** Sums of a real-valued function over an integer range. */
module RangeSums {
  import opened Basics

  function Sum(lo: int, hi: int, f: int -> real): real
    decreases hi - lo
  {
    if hi <= lo then 0.0 else Sum(lo, hi - 1, f) + f(hi - 1)
  }

  // Two functions that agree on the range have the same sum.
  lemma {:induction false} SumSame(lo: int, hi: int, f: int -> real, g: int -> real)
    requires forall i :: lo <= i < hi ==> f(i) == g(i)
    ensures Sum(lo, hi, f) == Sum(lo, hi, g)
    decreases hi - lo
  {
    if lo < hi {
      SumSame(lo, hi - 1, f, g);
    }
  }

  lemma {:induction false} SumOrdered(lo: int, hi: int, f: int -> real, g: int -> real)
    requires forall i :: lo <= i < hi ==> f(i) <= g(i)
    ensures Sum(lo, hi, f) <= Sum(lo, hi, g)
    ensures (exists i :: lo <= i < hi && f(i) < g(i)) ==> Sum(lo, hi, f) < Sum(lo, hi, g)
    decreases hi - lo
  {
    if lo < hi {
      SumOrdered(lo, hi - 1, f, g);
    }
  }

  lemma {:induction false} SumZero(lo: int, hi: int, f: int -> real)
    requires forall i :: lo <= i < hi ==> f(i) == 0.0
    ensures Sum(lo, hi, f) == 0.0
    decreases hi - lo
  {
    if lo < hi {
      SumZero(lo, hi - 1, f);
    }
  }

  lemma {:induction false} SumNonNegative(lo: int, hi: int, f: int -> real)
    requires forall i :: lo <= i < hi ==> f(i) >= 0.0
    ensures Sum(lo, hi, f) >= 0.0
    ensures (exists i :: lo <= i < hi && f(i) > 0.0) ==> Sum(lo, hi, f) > 0.0
    decreases hi - lo
  {
    if lo < hi {
      SumNonNegative(lo, hi - 1, f);
    }
  }

  lemma {:induction false} SumShift(lo: int, hi: int, step: int, f: int -> real, g: int -> real)
    requires forall i :: lo <= i < hi ==> g(i + step) == f(i)
    ensures Sum(lo + step, hi + step, g) == Sum(lo, hi, f)
    decreases hi - lo
  {
    if lo < hi {
      SumShift(lo, hi - 1, step, f, g);
      assert g(hi - 1 + step) == f(hi - 1);
    }
  }

  lemma {:induction false} SumSplit(lo: int, mid: int, hi: int, f: int -> real)
    requires lo <= mid <= hi
    ensures Sum(lo, hi, f) == Sum(lo, mid, f) + Sum(mid, hi, f)
    decreases hi - mid
  {
    if mid < hi {
      SumSplit(lo, mid, hi - 1, f);
    }
  }

  // Terms that vanish may be added at both ends.
  lemma SumWiden(lo: int, hi: int, outerLo: int, outerHi: int, f: int -> real)
    requires outerLo <= lo <= hi <= outerHi
    requires forall i :: (outerLo <= i < lo || hi <= i < outerHi) ==> f(i) == 0.0
    ensures Sum(outerLo, outerHi, f) == Sum(lo, hi, f)
  {
    SumSplit(outerLo, lo, outerHi, f);
    SumSplit(lo, hi, outerHi, f);
    SumZero(outerLo, lo, f);
    SumZero(hi, outerHi, f);
  }

  // A function that vanishes outside both of two ranges has the same sum over either.
  lemma SumWindow(lo1: int, hi1: int, lo2: int, hi2: int, f: int -> real)
    requires lo1 <= hi1 && lo2 <= hi2
    requires forall i :: f(i) != 0.0 ==> lo1 <= i < hi1 && lo2 <= i < hi2
    ensures Sum(lo1, hi1, f) == Sum(lo2, hi2, f)
  {
    var lo := if lo1 < lo2 then lo1 else lo2;
    var hi := if hi1 < hi2 then hi2 else hi1;
    SumWiden(lo1, hi1, lo, hi, f);
    SumWiden(lo2, hi2, lo, hi, f);
  }

  // A part of a sum of non-negative terms is at most the whole, and is the whole
  // exactly when nothing positive is left out.
  lemma SumPart(lo: int, hi: int, outerLo: int, outerHi: int, f: int -> real)
    requires outerLo <= lo <= hi <= outerHi
    requires forall i :: outerLo <= i < outerHi ==> f(i) >= 0.0
    ensures Sum(lo, hi, f) <= Sum(outerLo, outerHi, f)
    ensures Sum(lo, hi, f) == Sum(outerLo, outerHi, f) <==>
            forall i :: (outerLo <= i < lo || hi <= i < outerHi) ==> f(i) == 0.0
  {
    SumSplit(outerLo, lo, outerHi, f);
    SumSplit(lo, hi, outerHi, f);
    SumNonNegative(outerLo, lo, f);
    SumNonNegative(hi, outerHi, f);
    if forall i :: (outerLo <= i < lo || hi <= i < outerHi) ==> f(i) == 0.0 {
      SumWiden(lo, hi, outerLo, outerHi, f);
    }
  }

  // Non-negative terms living in one range, summed over another.
  lemma SumClip(lo: int, hi: int, lo2: int, hi2: int, f: int -> real)
    requires lo <= hi && lo2 <= hi2
    requires forall i :: f(i) >= 0.0
    requires forall i :: f(i) != 0.0 ==> lo <= i < hi
    ensures Sum(lo2, hi2, f) <= Sum(lo, hi, f)
    ensures Sum(lo2, hi2, f) == Sum(lo, hi, f) <==> forall i :: lo <= i < hi && !(lo2 <= i < hi2) ==> f(i) == 0.0
  {
    var outerLo := if lo < lo2 then lo else lo2;
    var outerHi := if hi < hi2 then hi2 else hi;
    SumWiden(lo, hi, outerLo, outerHi, f);
    SumPart(lo2, hi2, outerLo, outerHi, f);
  }

  lemma {:induction false} SumAdd(lo: int, hi: int, f: int -> real, g: int -> real, h: int -> real)
    requires forall i :: lo <= i < hi ==> h(i) == f(i) + g(i)
    ensures Sum(lo, hi, h) == Sum(lo, hi, f) + Sum(lo, hi, g)
    decreases hi - lo
  {
    if lo < hi {
      SumAdd(lo, hi - 1, f, g, h);
    }
  }

  lemma {:induction false} SumScale(lo: int, hi: int, c: real, f: int -> real, h: int -> real)
    requires forall i :: lo <= i < hi ==> h(i) == Times(c, f(i))
    ensures Sum(lo, hi, h) == Times(c, Sum(lo, hi, f))
    decreases hi - lo
  {
    hide Times;
    Distribute(c, 0.0, 0.0);
    if lo < hi {
      SumScale(lo, hi - 1, c, f, h);
      Distribute(c, Sum(lo, hi - 1, f), f(hi - 1));
    }
  }

  // ---- square grids ----

  function RowSum(n: int, f: (int, int) -> real, y: int): real {
    Sum(0, n, x => f(y, x))
  }

  function GridSum(n: int, f: (int, int) -> real): real {
    Sum(0, n, y => RowSum(n, f, y))
  }

  lemma GridSame(n: int, f: (int, int) -> real, g: (int, int) -> real)
    requires forall y, x :: 0 <= y < n && 0 <= x < n ==> f(y, x) == g(y, x)
    ensures GridSum(n, f) == GridSum(n, g)
  {
    forall y | 0 <= y < n
      ensures RowSum(n, f, y) == RowSum(n, g, y)
    {
      SumSame(0, n, x => f(y, x), x => g(y, x));
    }
    SumSame(0, n, y => RowSum(n, f, y), y => RowSum(n, g, y));
  }

  lemma GridAdd(n: int, f: (int, int) -> real, g: (int, int) -> real, h: (int, int) -> real)
    requires forall y, x :: 0 <= y < n && 0 <= x < n ==> h(y, x) == f(y, x) + g(y, x)
    ensures GridSum(n, h) == GridSum(n, f) + GridSum(n, g)
  {
    forall y | 0 <= y < n
      ensures RowSum(n, h, y) == RowSum(n, f, y) + RowSum(n, g, y)
    {
      SumAdd(0, n, x => f(y, x), x => g(y, x), x => h(y, x));
    }
    SumAdd(0, n, y => RowSum(n, f, y), y => RowSum(n, g, y), y => RowSum(n, h, y));
  }

  lemma GridScale(n: int, c: real, f: (int, int) -> real, h: (int, int) -> real)
    requires forall y, x :: 0 <= y < n && 0 <= x < n ==> h(y, x) == Times(c, f(y, x))
    ensures GridSum(n, h) == Times(c, GridSum(n, f))
  {
    hide Times;
    forall y | 0 <= y < n
      ensures RowSum(n, h, y) == Times(c, RowSum(n, f, y))
    {
      SumScale(0, n, c, x => f(y, x), x => h(y, x));
    }
    SumScale(0, n, c, y => RowSum(n, f, y), y => RowSum(n, h, y));
  }

  lemma GridOrdered(n: int, f: (int, int) -> real, g: (int, int) -> real)
    requires forall y, x :: 0 <= y < n && 0 <= x < n ==> f(y, x) <= g(y, x)
    ensures GridSum(n, f) <= GridSum(n, g)
    ensures (exists y, x :: 0 <= y < n && 0 <= x < n && f(y, x) < g(y, x)) ==> GridSum(n, f) < GridSum(n, g)
  {
    var fs, gs := (y: int) => RowSum(n, f, y), (y: int) => RowSum(n, g, y);
    forall y | 0 <= y < n
      ensures fs(y) <= gs(y)
      ensures (exists x :: 0 <= x < n && f(y, x) < g(y, x)) ==> fs(y) < gs(y)
    {
      var row, other := (x: int) => f(y, x), (x: int) => g(y, x);
      SumOrdered(0, n, row, other);
      SumSame(0, n, row, x => f(y, x));
      SumSame(0, n, other, x => g(y, x));
      if x :| 0 <= x < n && f(y, x) < g(y, x) {
        assert row(x) < other(x);
      }
    }
    if y, x :| 0 <= y < n && 0 <= x < n && f(y, x) < g(y, x) {
      assert fs(y) < gs(y);
    }
    SumOrdered(0, n, fs, gs);
    SumSame(0, n, fs, y => RowSum(n, f, y));
    SumSame(0, n, gs, y => RowSum(n, g, y));
  }

  lemma GridZero(n: int, f: (int, int) -> real)
    requires forall y, x :: 0 <= y < n && 0 <= x < n ==> f(y, x) == 0.0
    ensures GridSum(n, f) == 0.0
  {
    forall y | 0 <= y < n
      ensures RowSum(n, f, y) == 0.0
    {
      SumZero(0, n, x => f(y, x));
    }
    SumZero(0, n, y => RowSum(n, f, y));
  }

  lemma GridUnit(n: int, row: int, column: int, v: real, f: (int, int) -> real)
    requires 0 <= row < n && 0 <= column < n
    requires forall y, x :: 0 <= y < n && 0 <= x < n ==> f(y, x) == if y == row && x == column then v else 0.0
    ensures GridSum(n, f) == v
  {
    forall y | 0 <= y < n
      ensures RowSum(n, f, y) == if y == row then v else 0.0
    {
      var line := (x: int) => f(y, x);
      if y == row {
        SumWiden(column, column + 1, 0, n, line);
        assert Sum(column, column + 1, line) == line(column);
      } else {
        SumZero(0, n, line);
      }
      SumSame(0, n, line, x => f(y, x));
    }
    var rows := (y: int) => RowSum(n, f, y);
    SumWiden(row, row + 1, 0, n, rows);
    assert Sum(row, row + 1, rows) == rows(row);
    SumSame(0, n, rows, y => RowSum(n, f, y));
  }

  // The sum of the grids is the grid of the sums.
  lemma {:induction false} GridSwap(n: int, lo: int, hi: int, f: (int, int, int) -> real,
                                    whole: (int, int) -> real, each: int -> real)
    requires forall y, x :: 0 <= y < n && 0 <= x < n ==> whole(y, x) == Sum(lo, hi, i => f(i, y, x))
    requires forall i :: lo <= i < hi ==> each(i) == GridSum(n, (y, x) => f(i, y, x))
    ensures GridSum(n, whole) == Sum(lo, hi, each)
    decreases hi - lo
  {
    if hi <= lo {
      GridZero(n, whole);
    } else {
      var front := (y, x) => Sum(lo, hi - 1, i => f(i, y, x));
      GridSwap(n, lo, hi - 1, f, front, each);
      GridAdd(n, front, (y, x) => f(hi - 1, y, x), whole);
    }
  }
}
