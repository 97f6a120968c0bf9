/**
 The rolling window of the burst detector (`processing/rolling_burst.py`): a circular
 buffer of PSD rows, and a circular buffer of their stream positions, twice as long.
 Both refine the plain history of all rows ever fed.
 */
module RowWindow {
  import opened Arith
  import opened Wrappers

  ghost predicate Apart(a: object, b: object) {
    a != b
  }

  /** The positions recorded for the rows of one grid. */
  function PositionsOf(n: nat, chunkStart: Option<nat>, slice: Option<nat>): (r: seq<int>)
    ensures |r| == n
  {
    if chunkStart.Some? && slice.Some? && slice.value != 0
    then seq(n, i requires 0 <= i < n => chunkStart.value + i * slice.value)
    else seq(n, i requires 0 <= i < n => -1)
  }

  /** Known positions are a slice apart from the grid's first sample on, unknown ones negative. */
  lemma {:induction false} PositionsAre(n: nat, chunkStart: Option<nat>, slice: Option<nat>, i: nat)
    requires i < n
    ensures chunkStart.Some? && slice.Some? && slice.value != 0 ==>
      PositionsOf(n, chunkStart, slice)[0] == chunkStart.value
      && (i + 1 < n ==>
            PositionsOf(n, chunkStart, slice)[i + 1] - PositionsOf(n, chunkStart, slice)[i] == slice.value)
    ensures chunkStart.None? || slice.None? || slice.value == 0 ==> PositionsOf(n, chunkStart, slice)[i] < 0
  {
    if slice.Some? {
      assert (i + 1) * slice.value == i * slice.value + slice.value;
    }
  }

  /** Rows `[a, b)` as stream samples, read off the positions of the whole history `pos`:
      from the first row's position to one slice behind the last row's. */
  ghost function SpanOf(pos: seq<int>, slice: Option<nat>, kept: nat, a: nat, b: nat): Option<(int, int)>
    requires b <= |pos|
  {
    if slice.Some? && |pos| - kept <= a < b && 0 <= pos[a] <= pos[b - 1]
    then Some((pos[a], pos[b - 1] + slice.value))
    else None
  }

  /** `a % n` after a step of less than a turn back or of less than two turns forward. */
  lemma {:induction false} ModStep(a: nat, d: int, n: nat)
    requires 0 < n && 0 <= a + d && 0 <= a % n + d + n && a % n + d < 2 * n
    ensures (a + d) % n == Wrapped(a % n + d, n)
  {
    var q := a / n;
    var x := a % n + d;
    assert a == q * n + a % n;
    var turns := if x < 0 then -1 else if x < n then 0 else 1;
    DivUnique(a + d, n, q + turns, Wrapped(x, n));
  }

  function Wrapped(x: int, n: nat): int {
    if x < 0 then x + n else if x < n then x else x - n
  }

  lemma {:induction false} Turned(a: nat, d: nat, n: nat)
    requires 0 < n
    ensures (a % n + d) % n == (a + d) % n
  {
    var x := a % n + d;
    assert x == n * (x / n) + x % n && a == n * (a / n) + a % n;
    assert n * (a / n + x / n) == n * (a / n) + n * (x / n);
    DivUnique(a + d, n, a / n + x / n, x % n);
  }

  /** Two numbers less than a turn apart have different remainders. */
  lemma {:induction false} ModDiffers(a: nat, b: nat, n: nat)
    requires a < b < a + n
    ensures a % n != b % n
  {
    ModStep(a, b - a, n);
  }

  class RollingWindow<Row(0)> {
    const size: nat
    const window: array<Row>
    const rowPos: array<int>
    var writePos: nat
    var rowsFilled: nat
    var totalRows: nat
    var slice: Option<nat>
    /** Every row ever fed and its recorded position. */
    ghost var rows: seq<Row>
    ghost var pos: seq<int>

    /** The window holds the last rows of `h`, the row `a` in place `a % size`. */
    ghost predicate HoldsRows(h: seq<Row>)
      reads window
    {
      && 0 < size == window.Length
      && forall a :: 0 <= a < |h| && |h| - size <= a ==> window[a % size] == h[a]
    }

    /** The positions of the last two windows of rows are known. */
    ghost predicate HoldsPositions(h: seq<int>)
      reads rowPos
    {
      && 0 < size && rowPos.Length == 2 * size
      && forall a :: 0 <= a < |h| && |h| - 2 * size <= a ==> rowPos[a % (2 * size)] == h[a]
    }

    ghost predicate Valid()
      reads this, window, rowPos
    {
      && Apart(window, rowPos)
      && 0 < size && HoldsRows(rows) && HoldsPositions(pos)
      && totalRows == |rows| == |pos|
      && writePos == totalRows % size && rowsFilled == MinInt(totalRows, size)
    }

    constructor (size: nat)
      requires 0 < size
      ensures Valid() && rows == [] && pos == [] && slice == None
      ensures this.size == size && fresh(window) && fresh(rowPos)
    {
      this.size := size;
      window := new Row[size];
      rowPos := new int[2 * size](i => -1);
      writePos, rowsFilled, totalRows, slice := 0, 0, 0, None;
      rows, pos := [], [];
    }

    /** Appends the rows of one grid, in at most two copies. The second copy must fit. */
    method Feed(grid: seq<Row>, chunkStart: Option<nat>, sliceSamples: Option<nat>)
      requires Valid() && writePos + |grid| <= 2 * size
      modifies this, window, rowPos
      ensures Valid()
      ensures rows == old(rows) + grid
      ensures pos == old(pos) + PositionsOf(|grid|, chunkStart, sliceSamples)
      ensures slice == if chunkStart.Some? && sliceSamples.Some? && sliceSamples.value != 0
                       then sliceSamples else old(slice)
    {
      hide HoldsRows, HoldsPositions, PositionsOf;
      PlaceRows(grid);
      PlacePositions(PositionsOf(|grid|, chunkStart, sliceSamples));
      if chunkStart.Some? && sliceSamples.Some? && sliceSamples.value != 0 {
        slice := sliceSamples;
      }
      Turned(totalRows, |grid|, size);
      writePos := (writePos + |grid|) % size;
      rowsFilled := MinInt(rowsFilled + |grid|, size);
      totalRows := totalRows + |grid|;
      rows := rows + grid;
      pos := pos + PositionsOf(|grid|, chunkStart, sliceSamples);
    }

    /** The rows go behind `writePos`, and what does not fit there to the front. */
    method PlaceRows(grid: seq<Row>)
      requires Valid() && writePos + |grid| <= 2 * size
      modifies window
      ensures HoldsRows(rows + grid)
    {
      CopyIn(grid);
      var n := |grid|;
      forall a | 0 <= a < totalRows + n && totalRows + n - size <= a
        ensures window[a % size] == (rows + grid)[a]
      {
        ModStep(totalRows, a - totalRows, size);
        if a < totalRows {
          assert old(window[a % size]) == rows[a];
        }
      }
    }

    method CopyIn(grid: seq<Row>)
      requires 0 < size == window.Length && writePos < size && writePos + |grid| <= 2 * size
      modifies window
      ensures forall j :: 0 <= j < size ==>
        window[j] == if j < writePos + |grid| - size then grid[j + size - writePos]
                     else if writePos <= j < writePos + |grid| then grid[j - writePos]
                     else old(window[j])
    {
      var n := |grid|;
      if writePos + n <= size {
        forall i | 0 <= i < n {
          window[writePos + i] := grid[i];
        }
      } else {
        var first := size - writePos;
        forall i | 0 <= i < first {
          window[writePos + i] := grid[i];
        }
        forall i | 0 <= i < n - first {
          window[i] := grid[first + i];
        }
      }
    }

    method PlacePositions(ps: seq<int>)
      requires HoldsPositions(pos) && totalRows == |pos|
      modifies rowPos
      ensures HoldsPositions(pos + ps)
    {
      for i := 0 to |ps|
        invariant forall a :: 0 <= a < totalRows + i && totalRows + i - 2 * size <= a ==>
          rowPos[a % (2 * size)] == (pos + ps)[a]
      {
        forall a | 0 <= a < totalRows + i && totalRows + i - 2 * size < a
          ensures a % (2 * size) != (totalRows + i) % (2 * size)
        {
          ModDiffers(a, totalRows + i, 2 * size);
        }
        rowPos[(totalRows + i) % (2 * size)] := ps[i];
      }
    }

    /** The evaluated grid: the last rows fed, at most `size`, in order of arrival. */
    method Grid() returns (grid: seq<Row>)
      requires Valid()
      ensures grid == rows[totalRows - rowsFilled..]
    {
      hide HoldsRows, HoldsPositions;
      assert window.Length == size && writePos < size by {
        WindowFits();
      }
      if rowsFilled < size {
        grid := window[..rowsFilled];
      } else {
        grid := window[writePos..] + window[..writePos];
      }
      forall i | 0 <= i < rowsFilled
        ensures grid[i] == rows[totalRows - rowsFilled + i]
      {
        RowAt(i);
      }
    }

    lemma {:induction false} WindowFits()
      requires Valid()
      ensures window.Length == size && writePos < size
    {
    }

    /** Where the `i`-th row of the evaluated grid lies. */
    lemma {:induction false} RowAt(i: nat)
      requires Valid() && i < rowsFilled
      ensures window.Length == size
      ensures rowsFilled < size ==> window[i] == rows[totalRows - rowsFilled + i]
      ensures rowsFilled == size && i < size - writePos ==> window[writePos + i] == rows[totalRows - rowsFilled + i]
      ensures rowsFilled == size && size - writePos <= i ==> window[writePos + i - size] == rows[totalRows - rowsFilled + i]
    {
      var a := totalRows - rowsFilled + i;
      if rowsFilled < size {
        ModStep(0, a, size);
      } else {
        ModStep(totalRows, i - size, size);
      }
      assert window[a % size] == rows[a];
    }

    /** A burst's stream samples, from the recorded positions of its first and last row. */
    method Span(absStart: nat, absEnd: nat) returns (span: Option<(int, int)>)
      requires Valid() && absEnd <= totalRows
      ensures span == SpanOf(pos, slice, 2 * size, absStart, absEnd)
    {
      var last := absEnd - 1;
      if slice.Some? && absStart >= totalRows - 2 * size && last >= absStart {
        var p0, p1 := rowPos[absStart % (2 * size)], rowPos[last % (2 * size)];
        if p0 >= 0 && p1 >= p0 {
          return Some((p0, p1 + slice.value));
        }
      }
      return None;
    }
  }
}
