/**
 The PSD rows of a scheduled run (`schedules/engine.py`, `_place_rows` and `_flush_rows`).

 Workers finish chunks out of order, so rows wait in `pending` by their number in the file
 until all rows before them were handed to the writer. Zero fill moves a row on in the file
 and leaves holes that no chunk will ever fill.

 Rows are placed while the run goes on, by the zero fill known at that moment; the file index
 of the first row boundary is noted once, when the first grid arrives.
 */
module PsdRows {
  import opened Arith
  import opened CutFile
  import opened PsdPlan
  import opened Rounding
  import opened Wrappers

  type Row = seq<real>

  function Lowest(row: Row): (m: real)
    requires row != []
    ensures m in row && forall i :: 0 <= i < |row| ==> m <= row[i]
  {
    if |row| == 1 then row[0]
    else
      var m := Lowest(row[..|row| - 1]);
      if row[|row| - 1] < m then row[|row| - 1] else m
  }

  /** `low` is the smallest value of these rows. */
  ghost predicate IsLow(low: real, rows: seq<Row>) {
    && (exists k :: 0 <= k < |rows| && low in rows[k])
    && forall k :: 0 <= k < |rows| ==> AtLeast(rows[k], low)
  }

  ghost predicate AtLeast(row: Row, low: real) {
    forall i :: 0 <= i < |row| ==> low <= row[i]
  }

  /** The smallest value of a grid. */
  function GridLow(rows: seq<Row>): (low: real)
    requires rows != [] && forall i :: 0 <= i < |rows| ==> rows[i] != []
    ensures IsLow(low, rows)
  {
    if |rows| == 1 then Lowest(rows[0])
    else
      var m := GridLow(rows[..|rows| - 1]);
      var own := Lowest(rows[|rows| - 1]);
      if own < m then own else m
  }

  /** What zero fill beside these rows is filled with: their smallest value. */
  ghost predicate IsFill(v: Row, rows: seq<Row>) {
    rows != [] && exists low :: IsLow(low, rows) && v == Copies(|rows[0]|, low)
  }

  /** The value for rows that never come, with these rows: the smallest one so far. */
  ghost predicate Lowered(was: Option<real>, now: Option<real>, rows: seq<Row>) {
    && now.Some? && (was.Some? ==> now.value <= was.value)
    && (forall k :: 0 <= k < |rows| ==> AtLeast(rows[k], now.value))
    && (now == was || exists k :: 0 <= k < |rows| && now.value in rows[k])
  }

  /** Only these rows, or what they fill holes with, were put where nothing waited, and only
      these rows anywhere else. */
  ghost predicate PutIn(before: map<int, Row>, after: map<int, Row>, rows: seq<Row>, fill: Row) {
    && (forall r :: r in before ==> r in after)
    && forall r :: r in after ==>
         || (r in before && after[r] == before[r]) || after[r] in rows || (r !in before && after[r] == fill)
  }

  lemma {:induction false} LoweredBy(was: Option<real>, now: Option<real>, low: real, rows: seq<Row>)
    requires IsLow(low, rows) && now == Some(if was.Some? && was.value < low then was.value else low)
    ensures Lowered(was, now, rows)
  {
    forall k | 0 <= k < |rows|
      ensures AtLeast(rows[k], now.value)
    {
      assert AtLeast(rows[k], low);
    }
  }

  /** A chunk's grid: the chunk's stream position and its rows. */
  datatype ChunkGrid = ChunkGrid(at: int, rows: seq<Row>)
  {
    function End(slice: nat): int {
      at + |rows| * slice
    }
  }

  class RowBuffer {
    const start: int
    const firstChunk: int
    const slice: nat
    const nSamples: nat
    /** The cutter's zero fill by stream position, as far as chunks were fed to it. */
    var breaks: seq<Break>
    var gridOffset: Option<int>
    var gridRows: nat
    var pending: map<int, Row>
    var filler: Option<real>
    /** The stream position up to which chunks were fed. */
    ghost var cursor: int
    /** The number of breaks and the cursor at the moment the offset was noted. */
    ghost var noted: nat
    ghost var notedAt: int
    /** Every row handed to the writer, the rows of the stream by number, and which of
        them have arrived. */
    ghost var handed: seq<Row>
    ghost const data: nat -> Row
    ghost var arrived: set<nat>
    /** Every grid so far shared the run's row boundaries: no chunk was short. */
    ghost var aligned: bool

    /** The row numbering by what is known now. */
    ghost function PlanNow(): (pl: Plan)
      requires gridOffset.Some?
      reads `gridOffset, `breaks
    {
      Plan(start, firstChunk, slice, nSamples, breaks, gridOffset.value)
    }

    /** No row of the stream has this number: it covers zero fill. */
    ghost predicate Hole(pl: Plan, cur: int, r: int)
      requires 0 < pl.slice
    {
      exists j: nat :: pl.Boundary(j + 1) < cur && pl.Num(j) < r < pl.Num(j + 1)
    }

    /** What may stand in row `r`: the stream's own row, or anything in a hole. */
    ghost predicate RowOk(pl: Plan, cur: int, r: int, v: Row, have: set<nat>)
      requires 0 < pl.slice
    {
      (exists j :: j in have && pl.Num(j) == r && v == data(j)) || Hole(pl, cur, r)
    }

    /** Rows wait only for numbers not yet handed out and within the file ... */
    ghost predicate InRange(pl: Plan, p: map<int, Row>)
      requires 0 < pl.slice
      reads `gridRows
    {
      forall r :: r in p ==> gridRows <= r < pl.LastRow()
    }

    /** ... each under its own number, with none that arrived missing. */
    ghost predicate PendingOk(pl: Plan, cur: int, p: map<int, Row>, have: set<nat>)
      requires 0 < pl.slice
      reads `gridRows
    {
      && (forall r :: r in p ==> RowOk(pl, cur, r, p[r], have))
      && (forall j :: j in have && pl.Num(j) < pl.LastRow() ==> pl.Num(j) in p || pl.Num(j) < gridRows)
    }

    /** The numbers that zero fill left between row `j` and the row before it wait with
        something in them, or were handed on. */
    ghost predicate Filled(pl: Plan, p: map<int, Row>, j: nat)
      requires 0 < pl.slice && 0 < j
      reads `gridRows
    {
      forall r :: pl.Num(j - 1) < r < pl.Num(j) && r < pl.LastRow() ==> r in p || r < gridRows
    }

    ghost predicate AllFilled(pl: Plan, p: map<int, Row>, have: set<nat>)
      requires 0 < pl.slice
      reads `gridRows
    {
      forall j :: j in have && 0 < j ==> Filled(pl, p, j)
    }

    ghost predicate HandedOk(pl: Plan, cur: int, have: set<nat>)
      requires 0 < pl.slice
      reads `handed
    {
      forall r :: 0 <= r < |handed| ==> RowOk(pl, cur, r, handed[r], have)
    }

    /** A row arrives after its chunk was fed. */
    ghost predicate ArrivedFed(pl: Plan, cur: int, have: set<nat>)
      requires 0 < pl.slice
    {
      forall j :: j in have ==> pl.Boundary(j) < cur
    }

    /** What was known when the offset was noted. */
    ghost predicate NotedOk(pl: Plan, cur: int)
      requires 0 < pl.slice
      reads `noted, `notedAt
    {
      && noted <= |pl.breaks| && notedAt <= cur
      && pl.offset == pl.Base() - pl.start + ZerosBefore(pl.breaks[..noted], pl.Base())
      && GrownFrom(pl.breaks[..noted], pl.breaks, notedAt)
    }

    ghost predicate Untouched()
      reads `handed, `gridRows, `pending, `arrived
    {
      handed == [] && gridRows == 0 && (forall r :: r !in pending) && (forall j :: j !in arrived)
    }

    /** Numbers are handed on one by one and stay within the file ... */
    ghost predicate Counted(pl: Plan)
      requires 0 < pl.slice
      reads `handed, `gridRows, `pending
    {
      && gridRows == |handed| && (0 < gridRows ==> gridRows <= pl.LastRow())
      && InRange(pl, pending)
    }

    /** ... and what stands under them are the stream's rows. */
    ghost predicate Placed(pl: Plan, cur: int)
      requires 0 < pl.slice
      reads `handed, `gridRows, `pending, `arrived
    {
      && ArrivedFed(pl, cur, arrived) && PendingOk(pl, cur, pending, arrived) && AllFilled(pl, pending, arrived)
      && HandedOk(pl, cur, arrived)
    }

    ghost predicate Valid()
      reads this
    {
      && 0 < slice && Growing(breaks)
      && (if gridOffset.None? then Untouched()
          else
            && PlanNow().Valid() && NotedOk(PlanNow(), cursor) && Counted(PlanNow())
            && (aligned ==> Placed(PlanNow(), cursor)))
    }

    constructor (start: int, firstChunk: int, slice: nat, nSamples: nat, breaks: seq<Break>,
                 ghost cursor: int, ghost data: nat -> Row)
      requires 0 < slice && Growing(breaks)
      ensures Valid() && gridOffset == None && aligned
      ensures this.start == start && this.firstChunk == firstChunk && this.slice == slice
      ensures this.nSamples == nSamples && this.breaks == breaks
      ensures this.cursor == cursor && this.data == data
    {
      this.start, this.firstChunk, this.slice, this.nSamples := start, firstChunk, slice, nSamples;
      this.breaks, this.cursor, this.data := breaks, cursor, data;
      gridOffset, gridRows, pending, filler := None, 0, map[], None;
      handed, arrived, aligned, noted, notedAt := [], {}, true, 0, 0;
    }

    // ---------- feeding goes on ----------

    /** A chunk was fed: more zero fill may be known, from where feeding had stopped. */
    method Learn(now: seq<Break>, ghost to: int)
      requires Valid() && GrownFrom(breaks, now, cursor) && Growing(now) && cursor <= to
      modifies `breaks, `cursor
      ensures Valid() && breaks == now && cursor == to
    {
      hide Growing, GrownFrom, Placed, NotedOk, Plan.Valid;
      if gridOffset.Some? {
        if aligned {
          PlacedLater(PlanNow(), now, cursor, to);
        }
        StaysValid(PlanNow(), now, cursor);
        NotedLater(PlanNow(), now, cursor, to);
      }
      breaks := now;
      cursor := to;
    }

    lemma {:induction false} StaysValid(pl: Plan, later: seq<Break>, from: int)
      requires pl.Valid() && GrownFrom(pl.breaks, later, from) && Growing(later) && Counted(pl)
      ensures pl.(breaks := later).Valid() && Counted(pl.(breaks := later))
    {
      hide Plan.Boundary, Growing, GrownFrom;
      RowsSettle(pl, later, from, 0);
    }

    lemma {:induction false} NotedLater(pl: Plan, later: seq<Break>, from: int, to: int)
      requires 0 < pl.slice && NotedOk(pl, from) && GrownFrom(pl.breaks, later, from) && from <= to
      ensures NotedOk(pl.(breaks := later), to)
    {
      assert later[..noted] == pl.breaks[..noted];
      GrownTwice(pl.breaks[..noted], pl.breaks, later, notedAt, from);
    }

    lemma {:induction false} PlacedLater(pl: Plan, later: seq<Break>, from: int, to: int)
      requires pl.Valid() && GrownFrom(pl.breaks, later, from) && Growing(later) && from <= to
      requires Placed(pl, from)
      ensures Placed(pl.(breaks := later), to)
    {
      hide Plan.Num, Plan.Boundary, Plan.Distinct, RowOk, Growing, GrownFrom, Plan.LastRow, PendingOk, HandedOk, Filled;
      var now := pl.(breaks := later);
      RowsSettle(pl, later, from, 0);
      forall j | j in arrived && 0 < j
        ensures Filled(now, pending, j)
      {
        FilledLater(pl, later, from, j);
      }
      forall j: int
        ensures now.Boundary(j) == pl.Boundary(j)
      {
        RowsSettle(pl, later, from, j);
      }
      RowsLater(pl, later, from, to);
    }

    lemma {:induction false} FilledLater(pl: Plan, later: seq<Break>, from: int, j: nat)
      requires pl.Valid() && GrownFrom(pl.breaks, later, from) && Growing(later)
      requires 0 < j && pl.Boundary(j) < from && Filled(pl, pending, j)
      ensures Filled(pl.(breaks := later), pending, j)
    {
      hide Plan.Num, Plan.Boundary, Growing, GrownFrom, Plan.LastRow;
      BoundaryGrows(pl, j - 1, j);
      RowsSettle(pl, later, from, j - 1);
      RowsSettle(pl, later, from, j);
    }

    lemma {:induction false} RowsLater(pl: Plan, later: seq<Break>, from: int, to: int)
      requires pl.Valid() && GrownFrom(pl.breaks, later, from) && Growing(later) && from <= to
      requires PendingOk(pl, from, pending, arrived) && HandedOk(pl, from, arrived) && ArrivedFed(pl, from, arrived)
      ensures var now := pl.(breaks := later);
        PendingOk(now, to, pending, arrived) && HandedOk(now, to, arrived)
    {
      hide Plan.Num, Plan.Boundary, RowOk, Growing, GrownFrom, Plan.LastRow;
      var now := pl.(breaks := later);
      forall j | j in arrived
        ensures now.Num(j) == pl.Num(j) && now.LastRow() == pl.LastRow()
      {
        RowsSettle(pl, later, from, j);
      }
      forall r | r in pending
        ensures RowOk(now, to, r, pending[r], arrived)
      {
        RowOkLater(pl, later, from, to, r, pending[r], arrived);
      }
      forall r | 0 <= r < |handed|
        ensures RowOk(now, to, r, handed[r], arrived)
      {
        RowOkLater(pl, later, from, to, r, handed[r], arrived);
      }
    }

    lemma {:induction false} RowOkLater(pl: Plan, later: seq<Break>, from: int, to: int, r: int, v: Row,
                                        have: set<nat>)
      requires pl.Valid() && GrownFrom(pl.breaks, later, from) && Growing(later) && from <= to
      requires RowOk(pl, from, r, v, have) && ArrivedFed(pl, from, have)
      ensures RowOk(pl.(breaks := later), to, r, v, have)
    {
      hide Plan.Num, Plan.Boundary, Growing, GrownFrom;
      var now := pl.(breaks := later);
      if j :| j in have && pl.Num(j) == r && v == data(j) {
        RowsSettle(pl, later, from, j);
      } else {
        var j: nat :| pl.Boundary(j + 1) < from && pl.Num(j) < r < pl.Num(j + 1);
        BoundaryGrows(pl, j, j + 1);
        RowsSettle(pl, later, from, j);
        RowsSettle(pl, later, from, j + 1);
        assert now.Boundary(j + 1) < to && now.Num(j) < r < now.Num(j + 1);
      }
    }

    // ---------- the noted offset ----------

    /** The file index of the run's first row boundary, noted once. */
    method NoteOffset()
      requires Valid()
      modifies `gridOffset, `noted, `notedAt
      ensures Valid() && gridOffset.Some?
      ensures old(gridOffset).Some? ==> gridOffset == old(gridOffset) && noted == old(noted) && notedAt == old(notedAt)
      ensures old(gridOffset).None? ==>
                && gridOffset.value == PlanNow().FileIndex(PlanNow().Base())
                && noted == |breaks| && notedAt == cursor
    {
      hide PendingOk, HandedOk, ZerosBefore, Plan.Distinct, Growing;
      if gridOffset == None {
        var steps := -((firstChunk - start) / slice);
        var base := firstChunk + steps * slice;
        gridOffset := Some(base - start + ZerosBefore(breaks, base));
        noted, notedAt := |breaks|, cursor;
        assert breaks[..noted] == breaks;
        FirstNote();
      }
    }

    lemma {:induction false} FirstNote()
      requires 0 < slice && gridOffset.Some? && Untouched()
      ensures Counted(PlanNow()) && Placed(PlanNow(), cursor)
    {
    }

    /** The offset is the file index of the first row boundary in the finished file exactly
        when no zeros at or before that boundary became known after it was noted; in
        particular when the chunk that holds the boundary had been fed by then. */
    lemma {:induction false} OffsetLaw()
      requires Valid() && gridOffset.Some?
      ensures var base := PlanNow().Base();
        && (gridOffset.value == PlanNow().FileIndex(base)
            <==> forall i :: noted <= i < |breaks| ==> base < breaks[i].at)
        && (base < notedAt ==> gridOffset.value == PlanNow().FileIndex(base))
    {
      hide ZerosBefore, Growing, Placed, Plan.Base;
      ZerosStayIff(breaks[..noted], breaks, PlanNow().Base());
    }

    // ---------- placing rows ----------

    /** A row that arrives, put under its number. */
    lemma {:induction false} AddRow(pl: Plan, cur: int, p: map<int, Row>, have: set<nat>, j: nat, q: map<int, Row>)
      requires 0 < pl.slice && PendingOk(pl, cur, p, have) && HandedOk(pl, cur, have)
      requires forall r :: r in q && r != pl.Num(j) ==> r in p && q[r] == p[r]
      requires pl.Num(j) in q ==> q[pl.Num(j)] == data(j)
      requires forall r :: r in p ==> r in q
      requires gridRows <= pl.Num(j) < pl.LastRow() ==> pl.Num(j) in q
      ensures PendingOk(pl, cur, q, have + {j}) && HandedOk(pl, cur, have + {j})
    {
      hide Plan.Num, Plan.LastRow, Plan.Boundary, Hole;
      forall r | r in q
        ensures RowOk(pl, cur, r, q[r], have + {j})
      {
        if r != pl.Num(j) {
          RowStaysOk(pl, cur, r, q[r], have, j);
        }
      }
      forall r | 0 <= r < |handed|
        ensures RowOk(pl, cur, r, handed[r], have + {j})
      {
        RowStaysOk(pl, cur, r, handed[r], have, j);
      }
    }

    lemma {:induction false} RowStaysOk(pl: Plan, cur: int, r: int, v: Row, have: set<nat>, j: nat)
      requires 0 < pl.slice && RowOk(pl, cur, r, v, have)
      ensures RowOk(pl, cur, r, v, have + {j})
    {
      hide Plan.Num, Hole;
      if !Hole(pl, cur, r) {
        var i :| i in have && pl.Num(i) == r && v == data(i);
        assert i in have + {j};
      }
    }

    /** Fills the rows between two that follow each other in the stream, where none waits. */
    method FillHoles(from: int, to: int, fill: Row, lastRow: int, ghost pl: Plan)
      requires 0 < pl.slice && lastRow == pl.LastRow() && InRange(pl, pending)
      modifies `pending
      ensures InRange(pl, pending)
      ensures forall r :: r in old(pending) ==> r in pending && pending[r] == old(pending)[r]
      ensures forall r :: r in pending && r !in old(pending) ==> from <= r < to && pending[r] == fill
      ensures forall r :: from <= r < to && gridRows <= r < lastRow ==> r in pending
    {
      hide Plan.LastRow;
      var hole := from;
      while hole < to
        invariant from <= hole
        invariant InRange(pl, pending)
        invariant forall r :: r in old(pending) ==> r in pending && pending[r] == old(pending)[r]
        invariant forall r :: r in pending && r !in old(pending) ==> from <= r < to && pending[r] == fill
        invariant forall r :: from <= r < hole && r < to && gridRows <= r < lastRow ==> r in pending
      {
        if gridRows <= hole < lastRow && hole !in pending {
          pending := pending[hole := fill];
        }
        hole := hole + 1;
      }
    }

    /** Filled between two successive rows of the stream, `q` still holds what it may. */
    lemma {:induction false} HolesKeep(pl: Plan, cur: int, p: map<int, Row>, have: set<nat>, q: map<int, Row>, j: nat)
      requires 0 < pl.slice && PendingOk(pl, cur, p, have) && pl.Boundary(j + 1) < cur
      requires forall r :: r in p ==> r in q && q[r] == p[r]
      requires forall r :: r in q && r !in p ==> pl.Num(j) + 1 <= r < pl.Num(j + 1)
      ensures PendingOk(pl, cur, q, have)
    {
      hide Plan.Num, Plan.LastRow, Plan.Boundary;
      forall r | r in q && r !in p
        ensures Hole(pl, cur, r)
      {
        assert pl.Num(j) < r < pl.Num(j + 1);
      }
    }

    /** One row of a grid, at stream position `pos`, which is the stream's row `j`. */
    method PlaceOne(row: Row, pos: int, fill: Row, lastRow: int, ghost j: nat)
      requires Valid() && gridOffset.Some? && lastRow == PlanNow().LastRow()
      requires aligned ==> pos == PlanNow().Boundary(j) && row == data(j) && pos + slice <= cursor
      modifies `pending, `arrived
      ensures Valid() && (aligned ==> arrived == old(arrived) + {j})
      ensures PutIn(old(pending), pending, [row], fill)
    {
      hide Plan.Distinct, PendingOk, HandedOk, ZerosBefore, RoundHalfEven, NotedOk, Plan.Valid, Growing;
      ghost var pl := PlanNow();
      var index := pos - start + ZerosBefore(breaks, pos);
      var r := RoundHalfEven((index - gridOffset.value) as real / slice as real);
      assert aligned ==> r == pl.Num(j);
      if pos - slice >= start {
        var prev := pos - slice - start + ZerosBefore(breaks, pos - slice);
        var p := RoundHalfEven((prev - gridOffset.value) as real / slice as real);
        FillHoles(p + 1, r, fill, lastRow, pl);
        if aligned {
          PositiveRow(pl, pos, j);
          assert p == pl.Num(j - 1);
          HolesKeep(pl, cursor, old(pending), arrived, pending, j - 1);
          assert Filled(pl, pending, j);
        }
      } else if aligned {
        NoRowBefore(pl, pos, j);
      }
      ghost var holed := pending;
      if gridRows <= r < lastRow {
        pending := pending[r := row];
      }
      if aligned {
        AddRow(pl, cursor, holed, arrived, j, pending);
        FilledMore(pl, old(pending), holed, pending, arrived, j);
        arrived := arrived + {j};
      }
    }

    lemma {:induction false} PositiveRow(pl: Plan, pos: int, j: nat)
      requires 0 < pl.slice && pos == pl.Boundary(j) && pos - pl.slice >= pl.start
      ensures 0 < j && pl.Boundary(j - 1) == pos - pl.slice
    {
      BaseIsFirst(pl);
      BoundaryStep(pl, j - 1);
      assert j == 0 ==> j * pl.slice == 0;
    }

    lemma {:induction false} NoRowBefore(pl: Plan, pos: int, j: nat)
      requires 0 < pl.slice && pos == pl.Boundary(j) && pos - pl.slice < pl.start
      ensures j == 0
    {
      BaseIsFirst(pl);
      if 0 < j {
        BoundaryStep(pl, j - 1);
        MulMonotone(0, j - 1, pl.slice);
      }
    }

    /** What was filled stays so as rows are added, and row `j` came with its holes filled. */
    lemma {:induction false} FilledMore(pl: Plan, p: map<int, Row>, holed: map<int, Row>, q: map<int, Row>, have: set<nat>,
                                        j: nat)
      requires 0 < pl.slice && AllFilled(pl, p, have)
      requires forall r :: r in p ==> r in holed
      requires forall r :: r in holed ==> r in q
      requires 0 < j ==> Filled(pl, holed, j)
      ensures AllFilled(pl, q, have + {j})
    {
      hide Plan.Num, Plan.LastRow;
      forall i | i in have + {j} && 0 < i
        ensures Filled(pl, q, i)
      {
        assert i != j ==> Filled(pl, p, i);
      }
    }

    /** The stream rows that a grid brings wholly inside the run. */
    ghost predicate Brings(pl: Plan, rows: nat, chunkStart: int, end: int, j: nat)
      requires 0 < pl.slice
    {
      && chunkStart <= pl.Boundary(j)
      && pl.Boundary(j) + pl.slice <= chunkStart + rows * pl.slice
      && pl.Boundary(j) + pl.slice <= end
    }

    /** Row `k` of an aligned grid that starts at or after the run is a row of the stream. */
    lemma {:induction false} RowOfStream(pl: Plan, chunkStart: int, k: nat) returns (j: nat)
      requires 0 < pl.slice && (chunkStart - pl.firstChunk) % pl.slice == 0
      requires pl.start <= chunkStart + k * pl.slice
      ensures pl.Boundary(j) == chunkStart + k * pl.slice
    {
      var d := pl.slice;
      BaseIsFirst(pl);
      var m := (chunkStart - pl.firstChunk) / d;
      var b := (pl.firstChunk - pl.start) / d;
      assert chunkStart - pl.firstChunk == d * m;
      var i := m + k + b;
      assert (m + k + b) * d == m * d + k * d + b * d;
      assert pl.Boundary(i) == chunkStart + k * d;
      if i < 0 {
        MulMonotone(i, -1, d);
        assert false;
      }
      j := i;
    }

    /** The grid's rows are the stream's, and its chunk shares row boundaries with the run. */
    ghost predicate IsGrid(grid: seq<Row>, chunkStart: int)
      requires 0 < slice
    {
      && (chunkStart - firstChunk) % slice == 0
      && (forall k :: 0 <= k < |grid| ==> grid[k] != [])
      && (forall k: nat, j: nat :: k < |grid| && chunkStart + k * slice == Bounds().Boundary(j) ==> grid[k] == data(j))
    }

    /** The run's row boundaries, which do not depend on its losses. */
    ghost function Bounds(): Plan {
      Plan(start, firstChunk, slice, nSamples, [], 0)
    }

    /** A chunk's grid arrives, in any order, after what it covers of the run was fed. `end`
        is where the run's stream ends. */
    method PlaceRows(grid: seq<Row>, chunkStart: int, end: int)
      requires Valid() && forall k :: 0 <= k < |grid| ==> grid[k] != []
      requires MinInt(end, chunkStart + |grid| * slice) <= cursor
      modifies `gridOffset, `noted, `notedAt, `filler, `pending, `arrived, `aligned
      ensures Valid() && gridOffset.Some? && aligned == (old(aligned) && IsGrid(grid, chunkStart))
      ensures old(gridOffset).Some? ==> gridOffset == old(gridOffset) && noted == old(noted) && notedAt == old(notedAt)
      ensures old(gridOffset).None? ==>
                && gridOffset.value == PlanNow().FileIndex(PlanNow().Base())
                && noted == |breaks| && notedAt == cursor
      ensures aligned ==>
        forall j: nat :: j in arrived <==> j in old(arrived) || Brings(Bounds(), |grid|, chunkStart, end, j)
      ensures var (a, b) := TrimRange(|grid|, chunkStart, slice, start, end);
        if a < b then
          && Lowered(old(filler), filler, grid[a..b])
          && exists fill :: IsFill(fill, grid[a..b]) && PutIn(old(pending), pending, grid[a..b], fill)
        else filler == old(filler) && pending == old(pending)
    {
      hide Lowered, PutIn, IsFill, PendingOk, HandedOk, ZerosBefore, InRange, Brings, IsRow, TrimRange, Plan.Valid,
           Plan.Base, Plan.FileIndex, IsGrid;
      NoteOffset();
      aligned := aligned && IsGrid(grid, chunkStart);
      var (a, b) := TrimRange(|grid|, chunkStart, slice, start, end);
      TrimExact(|grid|, chunkStart, slice, start, end, 0);
      if aligned {
        SharesRows(grid, chunkStart);
        BroughtAreKept(Bounds(), |grid|, chunkStart, end);
      }
      if a < b {
        PlaceRange(grid, chunkStart, end, a, b);
      } else {
        NoRows(chunkStart, a);
      }
    }

    lemma {:induction false} SharesRows(grid: seq<Row>, chunkStart: int)
      requires 0 < slice && IsGrid(grid, chunkStart)
      ensures (chunkStart - firstChunk) % slice == 0
    {
    }

    lemma {:induction false} NoRows(chunkStart: int, a: nat)
      requires 0 < slice
      ensures forall j: nat :: !IsRow(Bounds(), j, chunkStart, a, a)
    {
    }

    /** The trimmed rows, one by one. */
    method PlaceRange(grid: seq<Row>, chunkStart: int, ghost end: int, a: nat, b: nat)
      requires Valid() && gridOffset.Some? && a < b <= |grid| && forall k :: 0 <= k < |grid| ==> grid[k] != []
      requires (a, b) == TrimRange(|grid|, chunkStart, slice, start, end)
      requires MinInt(end, chunkStart + |grid| * slice) <= cursor
      requires aligned ==> IsGrid(grid, chunkStart)
      modifies `filler, `pending, `arrived
      ensures Valid()
      ensures aligned ==>
        forall j: nat :: j in arrived <==> j in old(arrived) || IsRow(Bounds(), j, chunkStart, a, b)
      ensures Lowered(old(filler), filler, grid[a..b])
      ensures exists fill :: IsFill(fill, grid[a..b]) && PutIn(old(pending), pending, grid[a..b], fill)
    {
      hide PendingOk, HandedOk, ZerosBefore, InRange, IsRow, TrimRange, Plan.Valid, Plan.Distinct, NotedOk, Growing,
           IsGrid, IsLow, Lowered, PutIn;
      var low := GridLow(grid[a..b]);
      LoweredBy(filler, Some(if filler.Some? && filler.value < low then filler.value else low), low, grid[a..b]);
      filler := Some(if filler.Some? && filler.value < low then filler.value else low);
      assert IsFill(Copies(|grid[a]|, low), grid[a..b]);
      PlaceEach(grid, chunkStart, end, a, b, Copies(|grid[a]|, low));
    }

    method PlaceEach(grid: seq<Row>, chunkStart: int, ghost end: int, a: nat, b: nat, fill: Row)
      requires Valid() && gridOffset.Some? && a < b <= |grid|
      requires (a, b) == TrimRange(|grid|, chunkStart, slice, start, end)
      requires MinInt(end, chunkStart + |grid| * slice) <= cursor
      requires aligned ==> IsGrid(grid, chunkStart)
      modifies `pending, `arrived
      ensures Valid()
      ensures aligned ==>
        forall j: nat :: j in arrived <==> j in old(arrived) || IsRow(Bounds(), j, chunkStart, a, b)
      ensures PutIn(old(pending), pending, grid[a..b], fill)
    {
      hide PendingOk, HandedOk, ZerosBefore, InRange, IsRow, TrimRange, Plan.Valid, Plan.Distinct, NotedOk, Growing,
           IsGrid, PutIn;
      var lastRow := (nSamples - gridOffset.value) / slice;
      ghost var was := pending;
      NothingPut(pending, grid[a..b], fill);
      NoRows(chunkStart, a);
      for k := a to b
        invariant Valid()
        invariant PutIn(was, pending, grid[a..b], fill)
        invariant aligned ==>
          forall j: nat :: j in arrived <==> j in old(arrived) || IsRow(Bounds(), j, chunkStart, a, k)
      {
        ghost var j: nat := 0;
        if aligned {
          j := StreamRow(grid, chunkStart, end, k);
        }
        ghost var before := pending;
        PlaceOne(grid[k], chunkStart + k * slice, fill, lastRow, j);
        PutOneMore(was, before, pending, grid[a..b], k - a, fill);
        if aligned {
          RowsUpTo(Bounds(), chunkStart, a, k, j);
        }
      }
    }

    static lemma {:induction false} NothingPut(p: map<int, Row>, rows: seq<Row>, fill: Row)
      ensures PutIn(p, p, rows, fill)
    {
    }

    static lemma {:induction false} PutOneMore(was: map<int, Row>, before: map<int, Row>, now: map<int, Row>,
                                               rows: seq<Row>, k: nat, fill: Row)
      requires k < |rows| && PutIn(was, before, rows, fill) && PutIn(before, now, [rows[k]], fill)
      ensures PutIn(was, now, rows, fill)
    {
      assert rows[k] in rows;
    }

    /** Row `k` of a grid, if trimming keeps it, is a row of the stream that was fed. */
    lemma {:induction false} StreamRow(grid: seq<Row>, chunkStart: int, end: int, k: nat) returns (j: nat)
      requires 0 < slice && IsGrid(grid, chunkStart) && MinInt(end, chunkStart + |grid| * slice) <= cursor
      requires var (a, b) := TrimRange(|grid|, chunkStart, slice, start, end); a <= k < b
      ensures k < |grid| && chunkStart + k * slice == Bounds().Boundary(j) && grid[k] == data(j)
      ensures chunkStart + k * slice + slice <= cursor
    {
      hide TrimRange, Plan.Boundary;
      TrimExact(|grid|, chunkStart, slice, start, end, k);
      j := RowOfStream(Bounds(), chunkStart, k);
      InGrid(chunkStart, k, |grid|);
    }

    /** Row `j` of the stream is one of rows `[a, b)` of the chunk. */
    ghost predicate IsRow(pl: Plan, j: nat, chunkStart: int, a: nat, b: nat)
      requires 0 < pl.slice
    {
      exists k :: a <= k < b && pl.Boundary(j) == chunkStart + k * pl.slice
    }

    lemma {:induction false} RowsUpTo(pl: Plan, chunkStart: int, a: nat, k: nat, j: nat)
      requires 0 < pl.slice && a <= k && pl.Boundary(j) == chunkStart + k * pl.slice
      ensures forall i: nat :: IsRow(pl, i, chunkStart, a, k + 1) <==> IsRow(pl, i, chunkStart, a, k) || i == j
    {
      forall i: nat
        ensures IsRow(pl, i, chunkStart, a, k + 1) <==> IsRow(pl, i, chunkStart, a, k) || i == j
      {
        if pl.Boundary(i) == chunkStart + k * pl.slice {
          BoundaryGrows(pl, i, j);
        }
      }
    }

    lemma {:induction false} InGrid(chunkStart: int, k: nat, rows: nat)
      requires k < rows && 0 < slice
      ensures chunkStart + k * slice + slice <= chunkStart + rows * slice
    {
      MulMonotone(k + 1, rows, slice);
      assert (k + 1) * slice == k * slice + slice;
    }

    /** The rows kept by trimming are the stream's rows that the grid brings. */
    lemma {:induction false} BroughtAreKept(pl: Plan, rows: nat, chunkStart: int, end: int)
      requires 0 < pl.slice && (chunkStart - pl.firstChunk) % pl.slice == 0
      ensures var (a, b) := TrimRange(rows, chunkStart, pl.slice, pl.start, end);
        && a <= b <= rows
        && forall j: nat :: IsRow(pl, j, chunkStart, a, b) <==> Brings(pl, rows, chunkStart, end, j)
    {
      var (a, b) := TrimRange(rows, chunkStart, pl.slice, pl.start, end);
      TrimExact(rows, chunkStart, pl.slice, pl.start, end, 0);
      forall j: nat
        ensures IsRow(pl, j, chunkStart, a, b) <==> Brings(pl, rows, chunkStart, end, j)
      {
        BroughtIsKept(pl, rows, chunkStart, end, j);
      }
    }

    lemma {:induction false} BroughtIsKept(pl: Plan, rows: nat, chunkStart: int, end: int, j: nat)
      requires 0 < pl.slice && (chunkStart - pl.firstChunk) % pl.slice == 0
      ensures var (a, b) := TrimRange(rows, chunkStart, pl.slice, pl.start, end);
        IsRow(pl, j, chunkStart, a, b) <==> Brings(pl, rows, chunkStart, end, j)
    {
      hide TrimRange;
      var d := pl.slice;
      var (a, b) := TrimRange(rows, chunkStart, d, pl.start, end);
      BaseIsFirst(pl);
      MulMonotone(0, j, d);
      var k := RowInChunk(pl, chunkStart, j);
      if Brings(pl, rows, chunkStart, end, j) {
        QuotientBound(k * d, d, 0);
        assert 0 <= k by {
          if k < 0 { MulMonotone(k, -1, d); }
        }
        assert k < rows by {
          if rows <= k { MulMonotone(rows, k, d); }
        }
        TrimExact(rows, chunkStart, d, pl.start, end, k);
        assert a <= k < b;
      }
      if IsRow(pl, j, chunkStart, a, b) {
        var i :| a <= i < b && pl.Boundary(j) == chunkStart + i * d;
        TrimExact(rows, chunkStart, d, pl.start, end, i);
        MulMonotone(i + 1, rows, d);
        assert (i + 1) * d == i * d + d;
      }
    }

    lemma {:induction false} RowInChunk(pl: Plan, chunkStart: int, j: nat) returns (k: int)
      requires 0 < pl.slice && (chunkStart - pl.firstChunk) % pl.slice == 0
      ensures pl.Boundary(j) == chunkStart + k * pl.slice
    {
      var d := pl.slice;
      var m := (chunkStart - pl.firstChunk) / d;
      var b := (pl.firstChunk - pl.start) / d;
      assert chunkStart - pl.firstChunk == d * m;
      k := j - b - m;
      assert (j - b - m) * d == j * d - b * d - m * d;
    }

    // ---------- handing rows on ----------

    /** `v` is the row `j` of the stream, or another that arrived and has the same number. */
    ghost predicate Stands(pl: Plan, v: Row, j: nat, have: set<nat>)
      requires 0 < pl.slice
    {
      exists i :: i in have && pl.Num(i) == pl.Num(j) && v == data(i)
    }

    /** The number of a stream row is never taken for a hole. */
    lemma {:induction false} NotAHole(pl: Plan, cur: int, j: nat)
      requires pl.Valid()
      ensures !Hole(pl, cur, pl.Num(j))
    {
      hide Plan.Num, Plan.Boundary;
      if Hole(pl, cur, pl.Num(j)) {
        var i: nat :| pl.Boundary(i + 1) < cur && pl.Num(i) < pl.Num(j) < pl.Num(i + 1);
        if i < j {
          NumMonotone(pl, i + 1, j);
        } else {
          NumMonotone(pl, j, i);
        }
      }
    }

    lemma {:induction false} RowStands(pl: Plan, cur: int, v: Row, have: set<nat>, j: nat)
      requires pl.Valid() && RowOk(pl, cur, pl.Num(j), v, have)
      ensures Stands(pl, v, j, have)
    {
      hide Plan.Num, Hole;
      NotAHole(pl, cur, j);
    }

    /** Rows with numbers of their own stand under them. */
    lemma {:induction false} StandsAlone(pl: Plan, cur: int, v: Row, have: set<nat>, j: nat)
      requires pl.Valid() && pl.Distinct(cur) && ArrivedFed(pl, cur, have) && pl.Boundary(j) < cur
      requires Stands(pl, v, j, have)
      ensures v == data(j)
    {
      hide Plan.Num, Plan.Distinct, Plan.Boundary;
      InjectiveIff(pl, cur);
      var i :| i in have && pl.Num(i) == pl.Num(j) && v == data(i);
      assert i == j;
    }

    /** What was handed on under the number of a stream row is that row or one that shares
        its number; it is that row where no two rows collide. */
    lemma {:induction false} HandedLaw(j: nat)
      requires Valid() && gridOffset.Some? && aligned && PlanNow().Num(j) < |handed|
      ensures 0 <= PlanNow().Num(j) && Stands(PlanNow(), handed[PlanNow().Num(j)], j, arrived)
      ensures PlanNow().Distinct(cursor) && PlanNow().Boundary(j) < cursor ==> handed[PlanNow().Num(j)] == data(j)
    {
      hide Plan.Num, Plan.Distinct, Plan.Boundary, RowOk, Stands, NotedOk;
      var pl := PlanNow();
      NumNotNegative(pl, j);
      RowStands(pl, cursor, handed[pl.Num(j)], arrived, j);
      if pl.Distinct(cursor) && pl.Boundary(j) < cursor {
        StandsAlone(pl, cursor, handed[pl.Num(j)], arrived, j);
      }
    }

    /** Takes the next row off the buffer and hands it on. */
    method PopNext() returns (row: Row)
      requires Valid() && gridRows in pending
      modifies `pending, `gridRows, `handed
      ensures Valid() && row == old(pending)[old(gridRows)]
      ensures handed == old(handed) + [row] && gridRows == old(gridRows) + 1
      ensures pending == old(pending) - {old(gridRows)}
    {
      hide RowOk, Plan.Distinct, Plan.Num, NotedOk, Plan.Valid, ArrivedFed, Growing;
      row := pending[gridRows];
      pending := pending - {gridRows};
      gridRows := gridRows + 1;
      handed := handed + [row];
    }

    /** From `before` the rows numbered `[from, next)` were handed on and the others still wait. */
    static ghost predicate HandedOn(before: map<int, Row>, from: nat, left: map<int, Row>, next: nat, out: seq<Row>) {
      && from <= next == |out|
      && (forall r :: from <= r < next ==> r in before && out[r] == before[r])
      && (forall r :: r in left <==> r in before && next <= r)
      && (forall r :: r in left ==> left[r] == before[r])
    }

    static lemma {:induction false} HandedOne(before: map<int, Row>, from: nat, left: map<int, Row>, next: nat,
                                              out: seq<Row>)
      requires HandedOn(before, from, left, next, out) && next in left
      ensures HandedOn(before, from, left - {next}, next + 1, out + [left[next]])
    {
    }

    /** Hands on the rows that are next in order. */
    method FlushRows() returns (out: seq<Row>)
      requires Valid()
      modifies `pending, `gridRows, `handed
      ensures Valid() && gridRows !in pending
      ensures handed == old(handed) + out
      ensures HandedOn(old(pending), old(gridRows), pending, gridRows, handed)
      ensures gridOffset.Some? && aligned && gridRows < PlanNow().LastRow() ==>
        forall j :: j in arrived ==> gridRows != PlanNow().Num(j) && (0 < j ==> !Between(PlanNow(), j, gridRows))
    {
      hide Valid, HandedOn;
      out := [];
      ghost var before, from, had := pending, gridRows, handed;
      WaitingIsAhead(pending);
      while gridRows in pending
        invariant Valid()
        invariant handed == had + out
        invariant HandedOn(before, from, pending, gridRows, handed)
        decreases |pending|
      {
        ghost var was := pending;
        HandedOne(before, from, pending, gridRows, handed);
        var row := PopNext();
        SmallerMap(was, gridRows - 1);
        out := out + [row];
      }
      if gridOffset.Some? && aligned {
        StopsAtMissing();
      }
    }

    /** The number lies between those of row `j` and of the row before it. */
    ghost predicate Between(pl: Plan, j: nat, r: int)
      requires 0 < pl.slice && 0 < j
    {
      pl.Num(j - 1) < r < pl.Num(j)
    }

    /** Where handing on stops, no row that arrived belongs, and no zero fill before one. */
    lemma {:induction false} StopsAtMissing()
      requires Valid() && gridOffset.Some? && aligned && gridRows !in pending
      ensures 0 < slice
      ensures gridRows < PlanNow().LastRow() ==>
        forall j :: j in arrived ==> gridRows != PlanNow().Num(j) && (0 < j ==> !Between(PlanNow(), j, gridRows))
    {
      hide Plan.Num, Plan.LastRow, RowOk, NotedOk, Plan.Valid, ArrivedFed, HandedOk, Growing;
      var pl := PlanNow();
      forall j | j in arrived && gridRows < pl.LastRow()
        ensures gridRows != pl.Num(j) && (0 < j ==> !Between(pl, j, gridRows))
      {
        assert 0 < j ==> Filled(pl, pending, j);
      }
    }

    /** The first rows of the run have arrived and what could be was handed on. Then everything
        up to the last of them was, holes included, or the file is full: if and only if the
        noted index leaves out at most half a row of the zeros before row 0. If it leaves out
        more, row 0 has a larger number than 0 and nothing is handed on before the close. */
    lemma {:induction false} KeepsUpIff(n: nat)
      requires Valid() && gridOffset.Some? && aligned && gridRows !in pending && 0 < PlanNow().LastRow()
      requires forall j: nat :: j <= n ==> j in arrived
      ensures var late := PlanNow().FileIndex(PlanNow().Base()) - gridOffset.value;
        && (2 * late <= slice <==> PlanNow().Num(n) < gridRows || gridRows == PlanNow().LastRow())
        && (2 * late > slice ==> handed == [])
    {
      hide Plan.Num, Plan.LastRow, Plan.FileIndex, Plan.Base, RowOk, NotedOk, Plan.Valid, Growing;
      var pl := PlanNow();
      FirstNumIff(pl);
      if pl.Num(0) == 0 {
        HandedUpTo(n);
      } else {
        NothingHanded(pl, cursor);
        NumAtLeast(pl, n);
      }
    }

    lemma {:induction false} NumAtLeast(pl: Plan, n: nat)
      requires pl.Valid()
      ensures 0 <= pl.Num(0) <= pl.Num(n)
    {
      NumNotNegative(pl, 0);
      NumMonotone(pl, 0, n);
    }

    lemma {:induction false} HandedUpTo(n: nat)
      requires Valid() && gridOffset.Some? && aligned && gridRows !in pending && 0 < PlanNow().LastRow()
      requires (forall j: nat :: j <= n ==> j in arrived) && PlanNow().Num(0) == 0
      ensures PlanNow().Num(n) < gridRows || gridRows == PlanNow().LastRow()
    {
      hide Plan.Num, Plan.LastRow, RowOk, NotedOk, Plan.Valid, Growing;
      StopsAtMissing();
      if 0 < n {
        HandedUpTo(n - 1);
        assert n in arrived;
      } else {
        assert 0 in arrived;
      }
    }

    /** When row 0 has a larger number than 0, nothing ever stands under the number 0. */
    lemma {:induction false} NothingHanded(pl: Plan, cur: int)
      requires pl.Valid() && pl.Num(0) != 0 && HandedOk(pl, cur, arrived)
      ensures handed == []
    {
      hide Plan.Num, Plan.Boundary;
      if handed != [] {
        assert RowOk(pl, cur, 0, handed[0], arrived);
        NothingAtZero(pl, cur, handed[0], arrived);
      }
    }

    lemma {:induction false} NothingAtZero(pl: Plan, cur: int, v: Row, have: set<nat>)
      requires pl.Valid() && pl.Num(0) != 0
      ensures !RowOk(pl, cur, 0, v, have)
    {
      hide Plan.Num, Plan.Boundary;
      if j :| j in have && pl.Num(j) == 0 && v == data(j) {
        NumAtLeast(pl, j);
      } else if Hole(pl, cur, 0) {
        var j: nat :| pl.Boundary(j + 1) < cur && pl.Num(j) < 0 < pl.Num(j + 1);
        NumAtLeast(pl, j);
      }
    }

    lemma {:induction false} WaitingIsAhead(p: map<int, Row>)
      requires Valid() && p == pending
      ensures HandedOn(p, gridRows, p, gridRows, handed)
    {
      hide NotedOk, Placed;
    }

    static lemma {:induction false} SmallerMap(m: map<int, Row>, k: int)
      requires k in m
      ensures |m - {k}| < |m|
    {
      assert (m - {k}).Keys == m.Keys - {k};
      assert |m.Keys - {k}| == |m.Keys| - 1;
      assert |m.Keys| == |m| && |(m - {k}).Keys| == |m - {k}|;
    }

    /** The largest number in `[from, to)` under which a row waits. */
    static function TopKey(p: map<int, Row>, from: int, to: int): (top: Option<int>)
      ensures top.Some? ==> from <= top.value < to && top.value in p
      ensures top.Some? ==> (forall r :: top.value < r < to ==> r !in p)
      ensures top.None? ==> (forall r :: from <= r < to ==> r !in p)
      decreases if from < to then to - from else 0
    {
      if to <= from then None
      else if to - 1 in p then Some(to - 1)
      else TopKey(p, from, to - 1)
    }

    /** At the end of the run: rows that never came are filled, up to the last one held. */
    method Close() returns (out: seq<Row>)
      requires Valid()
      modifies `pending, `gridRows, `handed
      ensures (forall r :: r !in pending) && handed == old(handed) + out && gridRows == |handed|
      ensures gridOffset.None? ==> handed == []
      ensures gridOffset.Some? && 0 < |handed| ==> |handed| <= PlanNow().LastRow()
      ensures forall r :: r in old(pending) ==> 0 <= r < |handed| && handed[r] == old(pending)[r]
      ensures forall r :: |old(handed)| <= r < |handed| && r !in old(pending) ==>
        forall i :: 0 <= i < |handed[r]| ==> handed[r][i] == if filler.Some? then filler.value else 0.0
      ensures out != [] ==> |handed| - 1 in old(pending)
      ensures gridOffset.Some? && aligned ==> Complete(PlanNow(), cursor)
    {
      hide Plan.Distinct, Plan.Num, Plan.LastRow, NotedOk, Plan.Valid, Growing, RowOk;
      out := [];
      if gridOffset.Some? {
        var top := TopKey(pending, gridRows, (nSamples - gridOffset.value) / slice);
        LastRowIs(PlanNow());
        if top.Some? {
          var fill := Copies(|pending[top.value]|, if filler.Some? then filler.value else 0.0);
          out := FillUpTo(top.value, fill);
        } else if aligned {
          CloseIdle();
        }
      }
    }

    lemma {:induction false} LastRowIs(pl: Plan)
      requires 0 < pl.slice
      ensures pl.LastRow() == (pl.nSamples - pl.offset) / pl.slice
    {
    }

    /** The file's rows when the run is over: under the number of each row that arrived and
        fits stands that row or one that shares its number, and no filler follows the last
        row held. */
    ghost predicate Complete(pl: Plan, cur: int)
      requires 0 < pl.slice
      reads `handed, `arrived
    {
      && (forall j :: j in arrived && pl.Num(j) < pl.LastRow() ==>
            0 <= pl.Num(j) < |handed| && Stands(pl, handed[pl.Num(j)], j, arrived))
      && (handed != [] ==> RowOk(pl, cur, |handed| - 1, handed[|handed| - 1], arrived))
    }

    /** Each row that arrived and fits is in the file, under its number. */
    ghost predicate AllInPlace(pl: Plan)
      requires 0 < pl.slice
      reads `handed, `arrived
    {
      forall j :: j in arrived && pl.Num(j) < pl.LastRow() ==>
        0 <= pl.Num(j) < |handed| && handed[pl.Num(j)] == data(j)
    }

    /** The file is right exactly when rows that share a number do not differ ... */
    lemma {:induction false} AllInPlaceIff(pl: Plan, cur: int)
      requires pl.Valid() && Complete(pl, cur)
      ensures AllInPlace(pl) <==>
        forall i, j :: i in arrived && j in arrived && pl.Num(i) == pl.Num(j) < pl.LastRow() ==> data(i) == data(j)
    {
      hide Plan.Num, Plan.LastRow, RowOk;
    }

    /** ... and so when no two successive rows collide. */
    lemma {:induction false} DistinctInPlace(pl: Plan, cur: int)
      requires pl.Valid() && Complete(pl, cur) && pl.Distinct(cur) && ArrivedFed(pl, cur, arrived)
      ensures AllInPlace(pl)
    {
      hide Plan.Num, Plan.LastRow, Plan.Distinct, Plan.Boundary, RowOk, Stands;
      forall j | j in arrived && pl.Num(j) < pl.LastRow()
        ensures handed[pl.Num(j)] == data(j)
      {
        StandsAlone(pl, cur, handed[pl.Num(j)], arrived, j);
      }
    }

    lemma {:induction false} CloseIdle()
      requires Valid() && gridOffset.Some? && aligned && forall r :: r !in pending
      ensures Complete(PlanNow(), cursor)
    {
      hide Plan.Num, Plan.LastRow, Plan.Boundary, RowOk, Stands, NotedOk;
      var pl := PlanNow();
      forall j | j in arrived && pl.Num(j) < pl.LastRow()
        ensures 0 <= pl.Num(j) < |handed| && Stands(pl, handed[pl.Num(j)], j, arrived)
      {
        HandedLaw(j);
      }
    }

    method FillUpTo(top: int, fill: Row) returns (out: seq<Row>)
      requires Valid() && gridOffset.Some? && top in pending && forall r :: r in pending ==> r <= top
      modifies `pending, `gridRows, `handed
      ensures (forall r :: r !in pending) && handed == old(handed) + out && gridRows == |handed|
      ensures 0 < |handed| <= PlanNow().LastRow()
      ensures forall r :: r in old(pending) ==> 0 <= r < |handed| && handed[r] == old(pending)[r]
      ensures forall r :: |old(handed)| <= r < |handed| && r !in old(pending) ==> handed[r] == fill
      ensures |handed| - 1 == top
      ensures aligned ==> Complete(PlanNow(), cursor)
    {
      hide Plan.Distinct, Plan.LastRow, Plan.Num, Plan.Boundary, RowOk, NotedOk, Plan.Valid, Growing;
      out := [];
      ghost var waiting := pending;
      while gridRows <= top
        invariant old(gridRows) <= gridRows == |handed| <= top + 1
        invariant handed == old(handed) + out
        invariant forall r :: r in pending <==> r in waiting && gridRows <= r
        invariant forall r :: r in pending ==> pending[r] == waiting[r]
        invariant forall r :: 0 <= r < old(gridRows) ==> handed[r] == old(handed)[r]
        invariant forall r :: old(gridRows) <= r < gridRows ==> handed[r] == if r in waiting then waiting[r] else fill
      {
        var row := if gridRows in pending then pending[gridRows] else fill;
        pending := pending - {gridRows};
        handed := handed + [row];
        out := out + [row];
        gridRows := gridRows + 1;
      }
      assert forall r :: r in pending ==> r in waiting && r <= top;
      if aligned {
        ClosedIsComplete(PlanNow(), cursor, old(handed), waiting, top);
      }
    }

    lemma {:induction false} ClosedIsComplete(pl: Plan, cur: int, before: seq<Row>, waiting: map<int, Row>, top: int)
      requires pl.Valid() && top in waiting && 0 <= top
      requires forall r :: 0 <= r < |before| ==> RowOk(pl, cur, r, before[r], arrived)
      requires forall r :: r in waiting ==> |before| <= r <= top && RowOk(pl, cur, r, waiting[r], arrived)
      requires forall j :: j in arrived && pl.Num(j) < pl.LastRow() ==> pl.Num(j) in waiting || pl.Num(j) < |before|
      requires |handed| == top + 1 && |before| <= top
      requires forall r :: 0 <= r < |before| ==> handed[r] == before[r]
      requires forall r :: r in waiting ==> handed[r] == waiting[r]
      ensures Complete(pl, cur)
    {
      hide Plan.Num, Plan.LastRow, Plan.Boundary, RowOk, Stands;
      forall j | j in arrived && pl.Num(j) < pl.LastRow()
        ensures 0 <= pl.Num(j) < |handed| && Stands(pl, handed[pl.Num(j)], j, arrived)
      {
        NumNotNegative(pl, j);
        RowStands(pl, cur, handed[pl.Num(j)], arrived, j);
      }
    }

    // ---------- without losses ----------

    lemma {:induction false} LosslessStands(pl: Plan, v: Row, j: nat, have: set<nat>)
      requires 0 < pl.slice && Lossless(pl) && Stands(pl, v, j, have)
      ensures j in have && v == data(j)
    {
      hide Plan.Num;
      var i :| i in have && pl.Num(i) == pl.Num(j) && v == data(i);
      LosslessNum(pl, i);
      LosslessNum(pl, j);
    }

    lemma {:induction false} LosslessRow(pl: Plan, cur: int, r: nat, v: Row, have: set<nat>)
      requires 0 < pl.slice && Lossless(pl) && RowOk(pl, cur, r, v, have)
      ensures r in have && v == data(r)
    {
      hide Plan.Num, Hole, RowOk, Stands;
      LosslessNum(pl, r);
      LosslessPlan(pl);
      RowStands(pl, cur, v, have, r);
      LosslessStands(pl, v, r, have);
    }

    /** Without losses, once exactly the rows inside the run arrived, the file's rows are
        the stream's. */
    lemma {:induction false} LosslessFile(pl: Plan, cur: int, m: nat)
      requires 0 < pl.slice && Lossless(pl) && Complete(pl, cur) && m == MaxInt(0, pl.LastRow())
      requires forall j: nat :: j in arrived <==> j < m
      ensures |handed| == m && forall j: nat :: j < m ==> handed[j] == data(j)
    {
      hide Plan.Num, Plan.LastRow, RowOk, Stands, Lossless;
      if handed != [] {
        LosslessRow(pl, cur, |handed| - 1, handed[|handed| - 1], arrived);
      }
      forall j: nat | j < m
        ensures j < |handed| && handed[j] == data(j)
      {
        LosslessNum(pl, j);
        LosslessStands(pl, handed[j], j, arrived);
      }
      if 0 < m {
        LosslessNum(pl, m - 1);
        assert m - 1 in arrived;
      }
    }
  }

  // ---------- a run that is handed on late ----------

  lemma {:induction false} StalledPlan(pl: Plan)
    requires pl == Plan(1, 0, 2, 20, [Break(2, 2)], 1)
    ensures pl.Base() == 2 && pl.FileIndex(2) == 3 && pl.LastRow() == 9
  {
    assert pl.breaks[..0] == [];
  }

  lemma {:induction false} StalledGrids(rows: RowBuffer)
    requires rows.slice == 2 && rows.start == 1 && rows.firstChunk == 0
    requires forall j: nat :: j <= 2 ==> rows.data(j) != []
    ensures rows.IsGrid([rows.data(0)], 0) && rows.IsGrid([rows.data(0), rows.data(1), rows.data(2)], 2)
    ensures forall j: nat :: j <= 2 ==> rows.Brings(rows.Bounds(), 3, 2, 21, j)
    ensures rows.Bounds().Base() == 2
  {
    var pl := rows.Bounds();
    assert pl.Base() == 2;
    assert forall j: int :: pl.Boundary(j) == 2 + j * 2;
  }

  /** Two samples are lost right before the first row boundary, whose index was noted before:
      more than half a row of two samples. All rows of the next chunk arrive, and none of them
      is handed on before the close. */
  method NothingBeforeClose(data: nat -> Row) returns (rows: RowBuffer)
    requires forall j: nat :: j <= 2 ==> data(j) != []
    ensures rows.Valid() && rows.gridOffset.Some? && rows.aligned && rows.gridRows !in rows.pending
    ensures forall j: nat :: j <= 2 ==> j in rows.arrived
    ensures rows.handed == []
  {
    hide RowBuffer.Valid, RowBuffer.IsGrid, RowBuffer.Brings, RowBuffer.HandedOn, Plan.Base, Plan.FileIndex, Plan.LastRow,
         Plan.Num;
    rows := NotedBefore(data);
    StalledGrids(rows);
    rows.PlaceRows([data(0), data(1), data(2)], 2, 21);
    var out := rows.FlushRows();
    StalledPlan(rows.PlanNow());
    rows.KeepsUpIff(2);
  }

  /** The index is noted with the grid of the chunk before the boundary; then the loss becomes
      known. */
  method NotedBefore(data: nat -> Row) returns (rows: RowBuffer)
    requires forall j: nat :: j <= 2 ==> data(j) != []
    ensures fresh(rows) && rows.Valid() && rows.gridOffset == Some(1) && rows.aligned && rows.data == data
    ensures rows.start == 1 && rows.firstChunk == 0 && rows.slice == 2 && rows.nSamples == 20
    ensures rows.breaks == [Break(2, 2)] && rows.cursor == 8
  {
    hide RowBuffer.Valid, RowBuffer.IsGrid, RowBuffer.Brings, Plan.Base, Plan.FileIndex;
    rows := new RowBuffer(1, 0, 2, 20, [], 2, data);
    StalledGrids(rows);
    rows.PlaceRows([data(0)], 0, 21);
    StalledOffset(rows.PlanNow());
    rows.Learn([Break(2, 2)], 8);
  }

  lemma {:induction false} StalledOffset(pl: Plan)
    requires pl.(offset := 1) == Plan(1, 0, 2, 20, [], 1)
    ensures pl.FileIndex(pl.Base()) == 1
  {
  }

  // ---------- whole runs ----------

  /** The grids of successive chunks, each of whole rows. */
  ghost predicate Successive(chunks: seq<ChunkGrid>, slice: nat) {
    forall i :: 0 <= i < |chunks| - 1 ==> chunks[i + 1].at == chunks[i].End(slice)
  }

  /** The chunk that brings row `j` whole, among successive chunks that reach over it. */
  lemma {:induction false} ChunkOf(rows: RowBuffer, chunks: seq<ChunkGrid>, end: int, j: nat) returns (i: nat)
    requires 0 < rows.slice && chunks != [] && Successive(chunks, rows.slice)
    requires (chunks[|chunks| - 1].at - rows.firstChunk) % rows.slice == 0
    requires forall i :: 0 <= i < |chunks| ==> rows.IsGrid(chunks[i].rows, chunks[i].at)
    requires chunks[0].at <= rows.Bounds().Boundary(j)
    requires rows.Bounds().Boundary(j) + rows.slice <= end <= chunks[|chunks| - 1].End(rows.slice)
    ensures i < |chunks| && rows.Brings(rows.Bounds(), |chunks[i].rows|, chunks[i].at, end, j)
    decreases |chunks|
  {
    var pl, k := rows.Bounds(), |chunks| - 1;
    if chunks[k].at <= pl.Boundary(j) {
      i := k;
    } else {
      var row := rows.RowInChunk(pl, chunks[k].at, j);
      assert row < 0 by {
        if 0 <= row { MulMonotone(0, row, pl.slice); }
      }
      MulMonotone(row, -1, pl.slice);
      assert k != 0;
      assert chunks[k].at == chunks[k - 1].End(rows.slice);
      i := ChunkOf(rows, chunks[..k], MinInt(end, chunks[k].at), j);
    }
  }

  /** The chunks a whole run needs: they share its row boundaries and reach over it. */
  ghost predicate Covers(rows: RowBuffer, chunks: seq<ChunkGrid>)
    requires 0 < rows.slice
  {
    && chunks != [] && Successive(chunks, rows.slice)
    && (forall i :: 0 <= i < |chunks| ==> rows.IsGrid(chunks[i].rows, chunks[i].at))
    && chunks[0].at <= rows.Bounds().Base()
    && rows.start + rows.nSamples <= chunks[|chunks| - 1].End(rows.slice)
  }

  /** A row that arrived was brought by one of the chunks handled so far. */
  ghost predicate BroughtBy(rows: RowBuffer, chunks: seq<ChunkGrid>, order: seq<nat>, k: nat, j: nat)
    requires 0 < rows.slice && k <= |order| && forall i :: 0 <= i < |order| ==> order[i] < |chunks|
  {
    exists i :: 0 <= i < k && var c := chunks[order[i]];
      rows.Brings(rows.Bounds(), |c.rows|, c.at, rows.start + rows.nSamples, j)
  }

  /** Once every chunk came, exactly the rows inside the run have arrived. */
  lemma {:induction false} AllBrought(rows: RowBuffer, chunks: seq<ChunkGrid>, order: seq<nat>, pl: Plan, j: nat)
    requires 0 < rows.slice && Covers(rows, chunks)
    requires forall i :: 0 <= i < |order| ==> order[i] < |chunks|
    requires forall c: nat :: c < |chunks| ==> c in order
    requires pl == Plan(rows.start, rows.firstChunk, rows.slice, rows.nSamples, [], pl.offset) && Lossless(pl)
    ensures BroughtBy(rows, chunks, order, |order|, j) <==> j < pl.LastRow()
  {
    hide Plan.LastRow, Plan.Base, Lossless;
    var end := rows.start + rows.nSamples;
    FitsIff(pl, j);
    SameBoundaries(pl, rows.Bounds(), j);
    if j < pl.LastRow() {
      BoundaryGrows(rows.Bounds(), 0, j);
      var c := ChunkOf(rows, chunks, end, j);
      assert c in order;
      var i :| 0 <= i < |order| && order[i] == c;
    }
  }

  lemma {:induction false} SameBoundaries(a: Plan, b: Plan, j: int)
    requires 0 < a.slice == b.slice && a.start == b.start && a.firstChunk == b.firstChunk
    ensures a.Base() == b.Base() && a.Boundary(j) == b.Boundary(j)
  {
  }

  lemma {:induction false} BroughtStep(rows: RowBuffer, chunks: seq<ChunkGrid>, order: seq<nat>, k: nat)
    requires 0 < rows.slice && k < |order| && forall i :: 0 <= i < |order| ==> order[i] < |chunks|
    ensures forall j: nat :: BroughtBy(rows, chunks, order, k + 1, j) <==>
      || BroughtBy(rows, chunks, order, k, j)
      || rows.Brings(rows.Bounds(), |chunks[order[k]].rows|, chunks[order[k]].at, rows.start + rows.nSamples, j)
  {
    hide RowBuffer.Brings;
  }

  lemma {:induction false} NotEmptyRows(rows: RowBuffer, c: ChunkGrid)
    requires 0 < rows.slice && rows.IsGrid(c.rows, c.at)
    ensures forall k :: 0 <= k < |c.rows| ==> c.rows[k] != []
  {
  }

  lemma {:induction false} HasSlice(rows: RowBuffer)
    requires rows.Valid()
    ensures 0 < rows.slice
  {
  }

  lemma {:induction false} NotedLossless(pl: Plan)
    requires 0 < pl.slice && pl.breaks == []
    ensures pl.offset == pl.FileIndex(pl.Base()) ==> Lossless(pl)
  {
  }

  /** A chunk was fed, its grid comes, and the rows next in order are handed on. */
  method OneGrid(rows: RowBuffer, c: ChunkGrid) returns (out: seq<Row>)
    requires rows.Valid() && rows.breaks == [] && rows.aligned && rows.IsGrid(c.rows, c.at)
    requires rows.gridOffset.Some? ==> Lossless(rows.PlanNow())
    modifies rows
    ensures rows.Valid() && rows.breaks == [] && rows.gridOffset.Some? && Lossless(rows.PlanNow()) && rows.aligned
    ensures rows.handed == old(rows.handed) + out
    ensures forall j: nat :: j in rows.arrived <==>
      || j in old(rows.arrived)
      || rows.Brings(rows.Bounds(), |c.rows|, c.at, rows.start + rows.nSamples, j)
  {
    hide RowBuffer.Valid, RowBuffer.IsGrid, RowBuffer.Brings, RowBuffer.HandedOn, Plan.Base, Plan.FileIndex, Lossless;
    HasSlice(rows);
    NotEmptyRows(rows, c);
    rows.Learn([], MaxInt(rows.cursor, c.End(rows.slice)));
    rows.PlaceRows(c.rows, c.at, rows.start + rows.nSamples);
    NotedLossless(rows.PlanNow());
    out := rows.FlushRows();
  }

  lemma {:induction false} ClosedRun(rows: RowBuffer, chunks: seq<ChunkGrid>, order: seq<nat>, m: nat)
    requires 0 < rows.slice && rows.gridOffset.Some? && rows.breaks == [] && Lossless(rows.PlanNow())
    requires rows.Complete(rows.PlanNow(), rows.cursor) && Covers(rows, chunks)
    requires forall i :: 0 <= i < |order| ==> order[i] < |chunks|
    requires forall c: nat :: c < |chunks| ==> c in order
    requires forall j: nat :: j in rows.arrived <==> BroughtBy(rows, chunks, order, |order|, j)
    requires m == MaxInt(0, (rows.nSamples - (rows.Bounds().Base() - rows.start)) / rows.slice)
    ensures |rows.handed| == m && forall j: nat :: j < m ==> rows.handed[j] == rows.data(j)
  {
    hide RowBuffer.Complete, BroughtBy, Plan.Base, Covers;
    var pl := rows.PlanNow();
    SameBoundaries(pl, rows.Bounds(), 0);
    forall j: nat
      ensures j in rows.arrived <==> j < m
    {
      AllBrought(rows, chunks, order, pl, j);
    }
    rows.LosslessFile(pl, rows.cursor, m);
  }

  lemma {:induction false} CoverGrids(rows: RowBuffer, chunks: seq<ChunkGrid>, order: seq<nat>)
    requires 0 < rows.slice && Covers(rows, chunks)
    requires forall i :: 0 <= i < |order| ==> order[i] < |chunks|
    requires forall c: nat :: c < |chunks| ==> c in order
    ensures forall i :: 0 <= i < |order| ==> rows.IsGrid(chunks[order[i]].rows, chunks[order[i]].at)
    ensures order != [] && forall j: nat :: !BroughtBy(rows, chunks, order, 0, j)
  {
    hide RowBuffer.IsGrid;
    assert 0 in order;
  }

  /** A run without losses, whole: its chunks are fed one after the other, their grids come
      in any order and some perhaps twice, rows are placed and handed on as they come, and the
      run is closed. The file's rows are exactly the stream's rows wholly inside the run. */
  method RowsOfRun(rows: RowBuffer, chunks: seq<ChunkGrid>, order: seq<nat>) returns (out: seq<Row>)
    requires rows.Valid() && rows.gridOffset == None && rows.breaks == [] && rows.aligned
    requires Covers(rows, chunks)
    requires forall i :: 0 <= i < |order| ==> order[i] < |chunks|
    requires forall c: nat :: c < |chunks| ==> c in order
    modifies rows
    ensures rows.handed == out
    ensures var m := MaxInt(0, (rows.nSamples - (rows.Bounds().Base() - rows.start)) / rows.slice);
      |out| == m && forall j: nat :: j < m ==> out[j] == rows.data(j)
  {
    hide RowBuffer.Placed, RowBuffer.NotedOk, RowBuffer.IsGrid, RowBuffer.Brings, RowBuffer.Complete, BroughtBy,
         Plan.Base, Plan.Boundary, Plan.LastRow, ZerosBefore, Growing, Covers, Plan.Valid;
    out := [];
    CoverGrids(rows, chunks, order);
    for k := 0 to |order|
      invariant rows.Valid() && rows.breaks == [] && rows.handed == out && rows.aligned
      invariant 0 < k ==> rows.gridOffset.Some?
      invariant rows.gridOffset.Some? ==> Lossless(rows.PlanNow())
      invariant forall j: nat :: j in rows.arrived <==> BroughtBy(rows, chunks, order, k, j)
    {
      assert order[k] < |chunks|;
      var more := OneGrid(rows, chunks[order[k]]);
      BroughtStep(rows, chunks, order, k);
      out := out + more;
    }
    var rest := rows.Close();
    out := out + rest;
    ClosedRun(rows, chunks, order, MaxInt(0, (rows.nSamples - (rows.Bounds().Base() - rows.start)) / rows.slice));
  }
}
