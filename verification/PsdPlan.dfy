/**
 How a scheduled run numbers its PSD rows (`schedules/engine.py`, `_place_rows`;
 `capture/buffer.py`, `trim_grid_rows`).

 A row of the stream gets the number of the file row nearest to its first sample. Zero fill
 moves a row on in the file, by any number of samples, so two rows can round to one number.
 */
module PsdPlan {
  import opened Arith
  import opened CutFile
  import opened Rounding

  // ---------- trimming ----------

  /** The range of rows that `trim_grid_rows` keeps of a grid with `rows` rows. */
  function TrimRange(rows: nat, chunkStart: int, slice: int, start: int, end: int): (nat, nat) {
    if rows == 0 || slice <= 0 || end <= start then (0, 0)
    else
      var first := if start > chunkStart then (start - chunkStart + slice - 1) / slice else 0;
      var last := MinInt((end - chunkStart) / slice, rows);
      if first >= last then (0, 0) else (first, last)
  }

  /** Row `k` of a chunk lies wholly inside `[start, end)`. */
  predicate WhollyInside(k: int, chunkStart: int, slice: int, start: int, end: int) {
    start <= chunkStart + k * slice && chunkStart + k * slice + slice <= end
  }

  /** Trimming keeps exactly the rows wholly inside the bounds. */
  lemma {:induction false} TrimExact(rows: nat, chunkStart: int, slice: int, start: int, end: int, k: nat)
    requires 0 < slice
    ensures var (a, b) := TrimRange(rows, chunkStart, slice, start, end);
      && a <= b <= rows
      && (a <= k < b <==> k < rows && WhollyInside(k, chunkStart, slice, start, end))
  {
    var (a, b) := TrimRange(rows, chunkStart, slice, start, end);
    QuotientBound(end - chunkStart, slice, k + 1);
    QuotientBound(start - chunkStart + slice - 1, slice, k + 1);
    assert (k + 1) * slice == k * slice + slice;
    if end <= start {
    } else if start > chunkStart {
      QuotientBound(start - chunkStart + slice - 1, slice, 0);
    } else {
      assert 0 <= k * slice;
    }
  }

  // ---------- rounding ----------

  /** The fraction of `x` is exactly one half. */
  predicate Tie(x: real) {
    x - x.Floor as real == 0.5
  }

  lemma {:induction false} RoundMonotone(x: real, y: real)
    requires x <= y
    ensures RoundHalfEven(x) <= RoundHalfEven(y)
  {
    assert x.Floor <= y.Floor;
  }

  /** How rounding moves on when its argument moves on by one: by one, except for ties. */
  lemma {:induction false} RoundStep(x: real)
    ensures (x + 1.0).Floor == x.Floor + 1
    ensures RoundHalfEven(x + 1.0)
         == RoundHalfEven(x) + (if !Tie(x) then 1 else if x.Floor % 2 == 1 then 0 else 2)
  {
  }

  /** An odd tie is the largest number that rounds to its neighbour above. */
  lemma {:induction false} RoundBeyond(x: real, y: real)
    requires Tie(x) && x.Floor % 2 == 1 && x + 1.0 < y
    ensures RoundHalfEven(x) < RoundHalfEven(y)
  {
    assert x.Floor + 1 <= y.Floor;
  }

  // ---------- the plan ----------

  /** Where a run's stream starts, the chunk it began in, its length, the file's zero fill
      by stream position, and the file index noted for the first row boundary. */
  datatype Plan = Plan(start: int, firstChunk: int, slice: nat, nSamples: nat, breaks: seq<Break>, offset: int)
  {
    /** The noted index counts no zeros but those before the boundary. */
    ghost predicate Valid() {
      0 < slice && Growing(breaks) && Base() - start <= offset <= FileIndex(Base())
    }

    /** The run's first row boundary: chunks share row boundaries. */
    function Base(): int
      requires 0 < slice
    {
      firstChunk - ((firstChunk - start) / slice) * slice
    }

    function FileIndex(p: int): int {
      p - start + ZerosBefore(breaks, p)
    }

    function Boundary(j: int): int
      requires 0 < slice
    {
      Base() + j * slice
    }

    /** Where row `j` of the stream starts in the file, in rows. */
    function Place(j: int): real
      requires 0 < slice
    {
      (FileIndex(Boundary(j)) - offset) as real / slice as real
    }

    /** The row number that row `j` of the stream gets in the file. */
    function Num(j: int): int
      requires 0 < slice
    {
      RoundHalfEven(Place(j))
    }

    /** How many rows the file has room for. */
    function LastRow(): int
      requires 0 < slice
    {
      (nSamples - offset) / slice
    }

    /** Row `j` starts midway after an odd row number, with no zero fill before the next. */
    predicate Collides(j: int)
      requires 0 < slice
    {
      && Tie(Place(j)) && Place(j).Floor % 2 == 1
      && ZerosBefore(breaks, Boundary(j)) == ZerosBefore(breaks, Boundary(j + 1))
    }

    /** No two successive rows collide, of those that begin before position `cursor`. */
    ghost predicate Distinct(cursor: int)
      requires 0 < slice
    {
      forall j: nat :: Boundary(j + 1) < cursor ==> !Collides(j)
    }
  }

  /** Row 0 is the first row boundary at or after the start. */
  lemma {:induction false} BaseIsFirst(pl: Plan)
    requires 0 < pl.slice
    ensures pl.start <= pl.Base() < pl.start + pl.slice
  {
    var q := (pl.firstChunk - pl.start) / pl.slice;
    assert pl.firstChunk - pl.start == pl.slice * q + (pl.firstChunk - pl.start) % pl.slice;
  }

  lemma {:induction false} BoundaryStep(pl: Plan, j: int)
    requires 0 < pl.slice
    ensures pl.Boundary(j + 1) == pl.Boundary(j) + pl.slice
  {
    assert (j + 1) * pl.slice == j * pl.slice + pl.slice;
  }

  lemma {:induction false} BoundaryGrows(pl: Plan, i: int, j: int)
    requires 0 < pl.slice
    ensures i < j ==> pl.Boundary(i) + pl.slice <= pl.Boundary(j)
    ensures pl.Boundary(i) == pl.Boundary(j) <==> i == j
  {
    BoundaryStep(pl, i);
    BoundaryStep(pl, j);
    if i < j {
      MulMonotone(i + 1, j, pl.slice);
    } else if j < i {
      MulMonotone(j + 1, i, pl.slice);
    }
  }

  lemma {:induction false} ZerosGrow(breaks: seq<Break>, p: int, q: int)
    requires p <= q && Growing(breaks)
    ensures ZerosBefore(breaks, p) <= ZerosBefore(breaks, q)
  {
    BisectMonotone(breaks, p, q);
  }

  // ---------- successive rows ----------

  lemma {:induction false} QuotientStep(a: int, b: int, d: nat)
    requires 0 < d && a + d <= b
    ensures a as real / d as real + 1.0 <= b as real / d as real
    ensures a as real / d as real + 1.0 == b as real / d as real <==> a + d == b
  {
    var x, y, e := a as real, b as real, d as real;
    var w := y - x - e;
    assert (x + e + w) / e == x / e + e / e + w / e;
    assert 0.0 <= w / e;
    assert 0.0 == w / e <==> 0.0 == w;
  }

  /** Rows that follow each other in the stream are a row apart in the file, or more where
      zero fill lies between. */
  lemma {:induction false} PlaceStep(pl: Plan, j: int)
    requires pl.Valid()
    ensures pl.Place(j) + 1.0 <= pl.Place(j + 1)
    ensures pl.Place(j) + 1.0 == pl.Place(j + 1)
            <==> ZerosBefore(pl.breaks, pl.Boundary(j)) == ZerosBefore(pl.breaks, pl.Boundary(j + 1))
  {
    BoundaryStep(pl, j);
    ZerosGrow(pl.breaks, pl.Boundary(j), pl.Boundary(j + 1));
    QuotientStep(pl.FileIndex(pl.Boundary(j)) - pl.offset, pl.FileIndex(pl.Boundary(j + 1)) - pl.offset, pl.slice);
  }

  /** Row numbers never go back, and two successive rows share a number exactly when the
      first starts midway after an odd number and no zero fill follows it. */
  lemma {:induction false} SameNumberIff(pl: Plan, j: int)
    requires pl.Valid()
    ensures pl.Num(j) <= pl.Num(j + 1)
    ensures pl.Num(j) == pl.Num(j + 1) <==> pl.Collides(j)
  {
    hide RoundHalfEven, Plan.Place, Plan.Boundary;
    PlaceStep(pl, j);
    var x, y := pl.Place(j), pl.Place(j + 1);
    RoundStep(x);
    RoundMonotone(x + 1.0, y);
    if Tie(x) && x.Floor % 2 == 1 && x + 1.0 < y {
      RoundBeyond(x, y);
    }
  }

  /** Where no zero fill lies between two rows, their numbers differ by one exactly when the
      first does not start midway. */
  lemma {:induction false} NumStepIff(pl: Plan, j: int)
    requires pl.Valid() && ZerosBefore(pl.breaks, pl.Boundary(j)) == ZerosBefore(pl.breaks, pl.Boundary(j + 1))
    ensures pl.Num(j + 1) == pl.Num(j) + 1 <==> !Tie(pl.Place(j))
  {
    hide RoundHalfEven, Plan.Place, Plan.Boundary;
    PlaceStep(pl, j);
    RoundStep(pl.Place(j));
  }

  /** A stretch without losses that starts midway loses every second row: of two successive
      pairs of rows exactly one shares a number. */
  lemma {:induction false} TieCollides(pl: Plan, j: int)
    requires pl.Valid() && Tie(pl.Place(j))
    requires ZerosBefore(pl.breaks, pl.Boundary(j)) == ZerosBefore(pl.breaks, pl.Boundary(j + 1))
    requires ZerosBefore(pl.breaks, pl.Boundary(j + 1)) == ZerosBefore(pl.breaks, pl.Boundary(j + 2))
    ensures Tie(pl.Place(j + 1))
    ensures pl.Num(j) == pl.Num(j + 1) <==> pl.Num(j + 1) != pl.Num(j + 2)
  {
    hide RoundHalfEven, Plan.Place, Plan.Boundary, Plan.Num;
    PlaceStep(pl, j);
    RoundStep(pl.Place(j));
    SameNumberIff(pl, j);
    SameNumberIff(pl, j + 1);
  }

  /** A row's number is within half a row of the place of its first sample in the file. */
  lemma {:induction false} WithinHalfARow(pl: Plan, j: int)
    requires 0 < pl.slice
    ensures var error := pl.Num(j) * pl.slice + pl.offset - pl.FileIndex(pl.Boundary(j));
      -(pl.slice as int) <= 2 * error <= pl.slice
  {
    hide Plan.FileIndex, Plan.Boundary;
    HalfRange(pl.FileIndex(pl.Boundary(j)) - pl.offset, pl.slice, pl.Num(j));
  }

  lemma {:induction false} HalfRange(a: int, d: nat, r: int)
    requires 0 < d && -0.5 <= r as real - a as real / d as real <= 0.5
    ensures -(d as int) <= 2 * (r * d - a) <= d
  {
    var n := r * d;
    assert n as real == r as real * d as real;
    ScaledBack(a as real, r as real, d as real);
    assert -0.5 * d as real <= (n - a) as real <= 0.5 * d as real;
  }

  lemma {:induction false} ScaledBack(a: real, r: real, e: real)
    requires 0.0 < e && -0.5 <= r - a / e <= 0.5
    ensures -0.5 * e <= r * e - a <= 0.5 * e
  {
    var q := a / e;
    assert q * e == a;
    ScaleBound(r - q, e);
    assert (r - q) * e == r * e - q * e;
  }

  lemma {:induction false} ScaleBound(x: real, e: real)
    requires 0.0 < e && -0.5 <= x <= 0.5
    ensures -0.5 * e <= x * e <= 0.5 * e
  {
  }

  // ---------- any two rows ----------

  /** Without a collision, numbers increase strictly. */
  lemma {:induction false} NumIncreases(pl: Plan, cursor: int, i: nat, j: nat)
    requires pl.Valid() && pl.Distinct(cursor) && pl.Boundary(j) < cursor && i < j
    ensures pl.Num(i) < pl.Num(j)
    decreases j - i
  {
    hide Plan.Num, Plan.Boundary, Plan.Collides;
    BoundaryStep(pl, j - 1);
    SameNumberIff(pl, j - 1);
    if i < j - 1 {
      NumIncreases(pl, cursor, i, j - 1);
    }
  }

  /** The rows that begin before `cursor` have pairwise different numbers. */
  ghost predicate Injective(pl: Plan, cursor: int)
    requires 0 < pl.slice
  {
    forall i: nat, j: nat :: i < j && pl.Boundary(j) < cursor ==> pl.Num(i) != pl.Num(j)
  }

  /** No row takes another's number exactly when no two successive rows collide. */
  lemma {:induction false} InjectiveIff(pl: Plan, cursor: int)
    requires pl.Valid()
    ensures Injective(pl, cursor) <==> pl.Distinct(cursor)
  {
    hide Plan.Num, Plan.Boundary, Plan.Collides;
    if pl.Distinct(cursor) {
      forall i: nat, j: nat | i < j && pl.Boundary(j) < cursor
        ensures pl.Num(i) != pl.Num(j)
      {
        NumIncreases(pl, cursor, i, j);
      }
    }
    if Injective(pl, cursor) {
      forall j: nat | pl.Boundary(j + 1) < cursor
        ensures !pl.Collides(j)
      {
        SameNumberIff(pl, j);
      }
    }
  }

  lemma {:induction false} NumMonotone(pl: Plan, i: int, j: int)
    requires pl.Valid() && i <= j
    ensures pl.Num(i) <= pl.Num(j)
    decreases j - i
  {
    hide Plan.Num, Plan.Collides;
    if i < j {
      NumMonotone(pl, i, j - 1);
      SameNumberIff(pl, j - 1);
    }
  }

  lemma {:induction false} NumNotNegative(pl: Plan, j: nat)
    requires pl.Valid()
    ensures 0 <= pl.Num(j)
  {
    hide Plan.Num, RoundHalfEven;
    assert pl.Boundary(0) == pl.Base();
    assert 0.0 <= pl.Place(0);
    RoundMonotone(0.0, pl.Place(0));
    RoundOfInt(0);
    NumIs(pl, 0);
    NumMonotone(pl, 0, j);
  }

  /** Row 0 has the number 0 exactly when at most half a row of zeros before the first row
      boundary is not counted by the noted index. */
  lemma {:induction false} FirstNumIff(pl: Plan)
    requires pl.Valid()
    ensures pl.Num(0) == 0 <==> 2 * (pl.FileIndex(pl.Base()) - pl.offset) <= pl.slice
  {
    hide Plan.Base, Plan.FileIndex, RoundHalfEven;
    var z := pl.FileIndex(pl.Base()) - pl.offset;
    assert pl.Boundary(0) == pl.Base();
    HalfAtMost(z, pl.slice);
    RoundsToZero(z as real / pl.slice as real);
  }

  lemma {:induction false} RoundsToZero(x: real)
    requires 0.0 <= x
    ensures RoundHalfEven(x) == 0 <==> x <= 0.5
  {
  }

  lemma {:induction false} HalfAtMost(z: nat, d: nat)
    requires 0 < d
    ensures 0.0 <= z as real / d as real
    ensures z as real / d as real <= 0.5 <==> 2 * z <= d
  {
    var x, e := z as real / d as real, d as real;
    assert x * e == z as real;
    if x <= 0.5 {
      Scaled(x, 0.5, e);
    } else {
      Scaled(0.5, x, e);
    }
  }

  lemma {:induction false} Scaled(x: real, y: real, e: real)
    requires 0.0 < e && x <= y
    ensures x * e <= y * e && (x < y ==> x * e < y * e)
  {
  }

  lemma {:induction false} NumIs(pl: Plan, j: int)
    requires 0 < pl.slice
    ensures pl.Num(j) == RoundHalfEven(pl.Place(j))
  {
  }

  // ---------- when rows collide, in samples ----------

  lemma {:induction false} FloorIs(a: int, d: nat)
    requires 0 < d
    ensures (a as real / d as real).Floor == a / d
    ensures a as real / d as real - (a / d) as real == (a % d) as real / d as real
  {
    var q, r := a / d, a % d;
    assert a == d * q + r;
    assert a as real == d as real * q as real + r as real;
    assert a as real / d as real == q as real + r as real / d as real;
  }

  lemma {:induction false} HalfIff(r: int, d: nat)
    requires 0 < d
    ensures r as real / d as real == 0.5 <==> 2 * r == d
  {
    assert r as real == (r as real / d as real) * d as real;
  }

  lemma {:induction false} MultipleApart(j: int, z: int, d: nat)
    requires 0 < d
    ensures (j * d + z) % d == z % d && (j * d + z) / d == j + z / d
  {
    assert z == d * (z / d) + z % d;
    assert d * (j + z / d) == j * d + d * (z / d);
    DivUnique(j * d + z, d, j + z / d, z % d);
  }

  /** Zeros before row `j` that the noted index does not count. */
  function Uncounted(pl: Plan, j: int): int
    requires 0 < pl.slice
  {
    ZerosBefore(pl.breaks, pl.Boundary(j)) - (pl.offset - (pl.Base() - pl.start))
  }

  /** A row starts midway exactly when the zeros counted since the noted index are half a
      row, up to whole rows; two rows collide exactly when, besides, an odd number of rows
      was counted so far and no zero fill lies between the two. */
  lemma {:induction false} CollidesIff(pl: Plan, j: int)
    requires 0 < pl.slice
    ensures var z := Uncounted(pl, j);
      && (Tie(pl.Place(j)) <==> 2 * (z % pl.slice) == pl.slice)
      && (pl.Collides(j) <==>
            && 2 * (z % pl.slice) == pl.slice && (j + z / pl.slice) % 2 == 1
            && ZerosBefore(pl.breaks, pl.Boundary(j)) == ZerosBefore(pl.breaks, pl.Boundary(j + 1)))
  {
    hide ZerosBefore;
    var z := Uncounted(pl, j);
    var a := j * pl.slice + z;
    assert pl.Place(j) == a as real / pl.slice as real;
    FloorIs(a, pl.slice);
    MultipleApart(j, z, pl.slice);
    HalfIff(a % pl.slice, pl.slice);
  }

  lemma {:induction false} HalvesRound()
    ensures RoundHalfEven(1 as real / 2 as real) == 0
    ensures RoundHalfEven(3 as real / 2 as real) == 2 && RoundHalfEven(5 as real / 2 as real) == 2
  {
    assert (0.5).Floor == 0 && (1.5).Floor == 1 && (2.5).Floor == 2;
  }

  // ---------- without losses ----------

  /** Nothing was filled in, and the first row boundary was noted as such. */
  ghost predicate Lossless(pl: Plan)
    requires 0 < pl.slice
  {
    pl.breaks == [] && pl.offset == pl.Base() - pl.start
  }

  lemma {:induction false} LosslessPlan(pl: Plan)
    requires 0 < pl.slice && Lossless(pl)
    ensures pl.Valid() && pl.offset == pl.FileIndex(pl.Base())
  {
  }

  /** Without losses row `j` of the stream is row `j` of the file. */
  lemma {:induction false} LosslessNum(pl: Plan, j: nat)
    requires 0 < pl.slice && Lossless(pl)
    ensures pl.Place(j) == j as real && pl.Num(j) == j && !pl.Collides(j)
  {
    hide RoundHalfEven;
    assert pl.FileIndex(pl.Boundary(j)) - pl.offset == j * pl.slice;
    Cancel(j, pl.slice);
    RoundOfInt(j);
  }

  lemma {:induction false} Cancel(j: nat, d: nat)
    requires 0 < d
    ensures (j * d) as real / d as real == j as real
  {
    assert (j * d) as real == j as real * d as real;
  }

  /** Without losses a row fits into the file exactly when it lies inside the run. */
  lemma {:induction false} FitsIff(pl: Plan, j: nat)
    requires 0 < pl.slice && Lossless(pl)
    ensures pl.Boundary(j) + pl.slice <= pl.start + pl.nSamples <==> j < pl.LastRow()
  {
    QuotientBound(pl.nSamples - pl.offset, pl.slice, j + 1);
    BoundaryStep(pl, j);
  }

  // ---------- as the run goes on ----------

  /** Zero fill that becomes known later leaves the rows that begin before it in place. */
  lemma {:induction false} RowsSettle(pl: Plan, later: seq<Break>, from: int, j: int)
    requires pl.Valid() && GrownFrom(pl.breaks, later, from) && Growing(later)
    ensures var now := pl.(breaks := later);
      && now.Valid() && now.LastRow() == pl.LastRow() && now.Boundary(j) == pl.Boundary(j)
      && (pl.Boundary(j) < from ==> now.Place(j) == pl.Place(j) && now.Num(j) == pl.Num(j))
      && (pl.Boundary(j + 1) < from ==> (now.Collides(j) <==> pl.Collides(j)))
  {
    hide ZerosBefore, RoundHalfEven;
    BoundaryStep(pl, j);
    ZerosStayIff(pl.breaks, later, pl.Base());
    if pl.Boundary(j) < from {
      ZerosStayIff(pl.breaks, later, pl.Boundary(j));
    }
    if pl.Boundary(j + 1) < from {
      ZerosStayIff(pl.breaks, later, pl.Boundary(j + 1));
    }
  }
}
