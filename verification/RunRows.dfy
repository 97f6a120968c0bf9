/**
 A scheduled run's samples and PSD rows together (`schedules/engine.py`, `on_chunk` and
 `on_grid`): the receiver feeds every chunk to the run's cutter before the chunk is queued for
 the workers, and the grids they make of it come back later, in any order.
 */
module RunRows {
  import opened CutFile
  import opened Cutter
  import opened PsdPlan
  import opened PsdRows
  import opened Ring
  import opened Rounding
  import opened Timeline
  import opened Wrappers

  /** The rows of the cutter's run, placed by the zero fill that the cutter knows. */
  ghost predicate Tracks<T(0)>(rows: RowBuffer, cutter: RunCutter<T>)
    reads rows, cutter
  {
    && rows.Valid() && cutter.Valid() && cutter.started
    && cutter.streamStart == Some(rows.start) && cutter.firstChunk == rows.firstChunk
    && cutter.spec.nSamples == rows.nSamples
    && rows.breaks == cutter.breaks && rows.cursor == cutter.cursor
  }

  /** The run has started, in the chunk at `chunkStart`. */
  method BeginRows<T(0)>(cutter: RunCutter<T>, chunkStart: nat, slice: nat, ghost data: nat -> Row)
    returns (rows: RowBuffer)
    requires cutter.Valid() && cutter.started && cutter.firstChunk == chunkStart && 0 < slice
    ensures fresh(rows) && Tracks(rows, cutter)
    ensures rows.gridOffset == None && rows.slice == slice && rows.data == data && rows.aligned
  {
    hide RunCutter.Valid, RowBuffer.Valid;
    cutter.FileIsBehind();
    rows := new RowBuffer(cutter.streamStart.value, chunkStart, slice, cutter.spec.nSamples, cutter.breaks,
                          cutter.cursor, data);
  }

  /** A chunk of the stream: the cutter takes it, and the rows to come are placed by what it
      knows then. */
  method FeedChunk<T(0)>(cutter: RunCutter<T>, rows: RowBuffer, chunk: seq<T>, chunkStart: nat, captureTime: real,
                         recvGaps: seq<Gap>, centerFreqHz: real, ring: CircularBuffer?<T>, ghost past: seq<Slot<T>>)
    returns (ops: seq<Op<T>>)
    requires Tracks(rows, cutter) && 0.0 < cutter.spec.rateHz
    requires cutter.Received(chunk, chunkStart, recvGaps, ring, past) && cutter.stream <= past
    modifies cutter, rows`breaks, rows`cursor
    ensures Tracks(rows, cutter)
    ensures GrownFrom(old(rows.breaks), rows.breaks, old(rows.cursor)) && old(rows.cursor) <= rows.cursor
    ensures cutter.Placement() == old(cutter.Placement())
    ensures !old(cutter.done) && centerFreqHz == cutter.spec.centerFreqHz ==>
      && rows.cursor == chunkStart + |chunk|
      && cutter.view == old(cutter.view) + MissedSlots(chunkStart - |old(cutter.stream)|) + ChunkSlots(chunk, recvGaps)
  {
    hide RunCutter.Valid, RowBuffer.Valid, RunCutter.Received, RunCutter.Begun, RunCutter.File, Carries, GrownFrom,
         Growing;
    ReceivedNext(cutter, chunk, chunkStart, recvGaps, ring, past);
    ops := cutter.Feed(chunk, chunkStart, captureTime, recvGaps, centerFreqHz, ring, past);
    cutter.FileIsBehind();
    if !old(cutter.done) && centerFreqHz == cutter.spec.centerFreqHz {
      FedUpTo(cutter, past, chunk, recvGaps);
    }
    rows.Learn(cutter.breaks, cutter.cursor);
  }

  lemma {:induction false} ReceivedNext<T(0)>(cutter: RunCutter<T>, chunk: seq<T>, chunkStart: nat,
                                              recvGaps: seq<Gap>, ring: CircularBuffer?<T>, past: seq<Slot<T>>)
    requires cutter.Received(chunk, chunkStart, recvGaps, ring, past)
    ensures |past| == chunkStart
  {
  }

  lemma {:induction false} FedUpTo<T(0)>(cutter: RunCutter<T>, past: seq<Slot<T>>, chunk: seq<T>, gaps: seq<Gap>)
    requires cutter.Valid() && cutter.started && cutter.stream == past + ChunkSlots(chunk, gaps)
    ensures cutter.cursor == |past| + |chunk|
  {
  }

  /** Where the run's stream ends, as far as it is known. */
  function StreamEndOf<T(0)>(cutter: RunCutter<T>): int
    requires cutter.streamStart.Some?
    reads cutter
  {
    if cutter.done then cutter.StreamEnd() else cutter.streamStart.value + cutter.spec.nSamples
  }

  /** A chunk's grid comes back. The chunk was fed, unless the cutter was done by then. */
  method PlaceGrid<T(0)>(cutter: RunCutter<T>, rows: RowBuffer, grid: seq<Row>, chunkStart: int)
    requires Tracks(rows, cutter) && forall k :: 0 <= k < |grid| ==> grid[k] != []
    requires cutter.done || chunkStart + |grid| * rows.slice <= cutter.nextPos
    modifies rows`gridOffset, rows`noted, rows`notedAt, rows`filler, rows`pending, rows`arrived, rows`aligned
    ensures Tracks(rows, cutter) && rows.gridOffset.Some?
    ensures rows.aligned == (old(rows.aligned) && rows.IsGrid(grid, chunkStart))
    ensures old(rows.gridOffset).Some? ==>
              rows.gridOffset == old(rows.gridOffset) && rows.notedAt == old(rows.notedAt)
    ensures old(rows.gridOffset).None? ==>
              && rows.gridOffset.value == rows.PlanNow().FileIndex(rows.PlanNow().Base())
              && rows.notedAt == cutter.cursor
    ensures rows.aligned ==> forall j: nat :: j in rows.arrived <==>
      j in old(rows.arrived) || rows.Brings(rows.Bounds(), |grid|, chunkStart, StreamEndOf(cutter), j)
  {
    hide RunCutter.Valid, RowBuffer.Valid, RowBuffer.IsGrid, RowBuffer.Brings, Growing;
    cutter.FileIsBehind();
    rows.PlaceRows(grid, chunkStart, StreamEndOf(cutter));
  }

  /** Rows are placed by the cutter's own map. */
  lemma {:induction false} SameIndex<T(0)>(rows: RowBuffer, cutter: RunCutter<T>, p: nat)
    requires Tracks(rows, cutter) && rows.gridOffset.Some?
    ensures cutter.FileIndex(p) == Some(rows.PlanNow().FileIndex(p))
  {
  }

  /** What a row's number means: the file sample at which the row is said to start is within
      half a row of the file sample that is the row's first one. */
  lemma {:induction false} RowsNearTheirSamples<T(0)>(rows: RowBuffer, cutter: RunCutter<T>, j: nat)
    requires Tracks(rows, cutter) && rows.gridOffset.Some?
    requires cutter.streamStart.value <= rows.PlanNow().Boundary(j) < cutter.StreamEnd()
    ensures var pl := rows.PlanNow();
      var p: nat := pl.Boundary(j);
      && p < |cutter.stream| && cutter.FileIndex(p).Some? && 0 <= cutter.FileIndex(p).value < |cutter.File()|
      && (cutter.File()[cutter.FileIndex(p).value] == CellOf(cutter.stream[p], p)
          || cutter.File()[cutter.FileIndex(p).value] == Skipped(p))
      && var error := pl.offset + pl.Num(j) * pl.slice - cutter.FileIndex(p).value;
         -(pl.slice as int) <= 2 * error <= pl.slice
  {
    hide RunCutter.Valid, RunCutter.File, Plan.Boundary, Plan.Num;
    var pl := rows.PlanNow();
    var p: nat := pl.Boundary(j);
    cutter.FileIndexLaw();
    assert cutter.FileIndex(p) == Some(pl.FileIndex(p));
    assert 0 <= cutter.FileIndex(p).value < |cutter.File()| && p < |cutter.stream|;
    WithinHalfARow(pl, j);
  }

  // ---------- rows that collide ----------

  /** The run begins at stream position `t`, at the chunk's first or second sample. */
  lemma {:induction false} FirstChunkFed(cutter: RunCutter<int>, t: nat)
    requires cutter.Valid() && cutter.started && cutter.spec.nSamples == 20 && t <= 1 && cutter.target == t
    requires cutter.viewBase == 0 && cutter.view == ChunkSlots([10, 11], []) && cutter.firstChunk == 0
    requires cutter.firstLoss == 0
    ensures cutter.streamStart == Some(t) && cutter.cursor == cutter.nextPos == |cutter.stream| == 2
    ensures cutter.written == 2 - t
    ensures cutter.FileIndex(t) == Some(0) && cutter.FileIndex(2) == Some(2 - t)
  {
    hide PositionLaw, FillRuns, FillCount, Axis, BookOk;
    assert cutter.view == PlainSlots([10, 11]);
    AxisPlain([10, 11], 0);
    assert LossBelow(cutter.view, 0) == 0;
    assert cutter.full == Gots([10, 11], 0)[t..];
    assert cutter.full[0] == Got(t, 10 + t);
    NotYetFull(cutter);
    cutter.FileIndexCovers(0);
    cutter.FileIsBehind();
    IndexAtEnd(cutter, 2);
  }

  /** As long as the file is not full, it ends where feeding stopped. */
  lemma {:induction false} NotYetFull(cutter: RunCutter<int>)
    requires cutter.Valid() && cutter.started && |cutter.full| <= cutter.spec.nSamples
    ensures cutter.File() == cutter.full && cutter.written == |cutter.full|
    ensures cutter.StreamEnd() == cutter.cursor
  {
  }

  lemma {:induction false} IndexAtEnd(cutter: RunCutter<int>, p: nat)
    requires cutter.Valid() && cutter.started && cutter.StreamEnd() <= p
    ensures cutter.FileIndex(p) == Some(p - cutter.streamStart.value + cutter.zerosTotal)
  {
    hide BisectRight, ZerosBefore;
    ZerosMonotone(cutter.breaks, cutter.zerosTotal, cutter.StreamEnd(), p, p);
  }

  /** The loss right before the second chunk moves all its samples on by one. */
  lemma {:induction false} SecondChunkFed(cutter: RunCutter<int>, t: nat, p: nat)
    requires cutter.Valid() && cutter.started && cutter.spec.nSamples == 20 && t <= 1 && cutter.target == t
    requires cutter.viewBase == 0 && cutter.firstChunk == 0 && cutter.firstLoss == 0
    requires cutter.view == ChunkSlots([10, 11], []) + MissedSlots(0) + ChunkSlots([12, 13, 14, 15, 16, 17], [Gap(0, 1)])
    requires cutter.streamStart == Some(t) && t <= p < 8
    ensures cutter.cursor == cutter.nextPos == cutter.StreamEnd() == 8
    ensures cutter.FileIndex(p) == Some(p - t + if 2 <= p then 1 else 0)
  {
    hide BookOk, Axis, PositionLaw;
    SecondView(cutter.view);
    AxisLength(cutter.view, 0);
    assert |cutter.full| == 9 - t;
    NotYetFull(cutter);
    cutter.FileIsBehind();
    cutter.FileIndexAt(p);
  }

  lemma {:induction false} SecondView(view: seq<Slot<int>>)
    requires view == ChunkSlots([10, 11], []) + MissedSlots(0) + ChunkSlots([12, 13, 14, 15, 16, 17], [Gap(0, 1)])
    ensures |view| == 8
    ensures forall k :: 0 <= k <= 8 ==> LossBelow(view, k) == if k <= 2 then 0 else 1
  {
    var six := [12, 13, 14, 15, 16, 17];
    assert ChunkSlots(six, []) == PlainSlots(six);
    assert ChunkSlots(six, [Gap(0, 1)])[0].lost == 1;
    forall k: nat | k <= 8
      ensures LossBelow(view, k) == if k <= 2 then 0 else 1
    {
      OneLoss(view, k);
    }
  }

  lemma {:induction false} OneLoss(view: seq<Slot<int>>, k: nat)
    requires k <= |view| && forall i :: 0 <= i < |view| ==> view[i].lost == if i == 2 then 1 else 0
    ensures LossBelow(view, k) == if k <= 2 then 0 else 1
  {
    if 0 < k {
      OneLoss(view, k - 1);
    }
  }

  lemma {:induction false} BaseOf(pl: Plan, t: nat)
    requires pl.start == t <= 1 && pl.firstChunk == 0 && pl.slice == 2
    ensures pl.Base() == 2 * t
  {
  }

  lemma {:induction false} IndexIgnoresOffset(pl: Plan, offset: int)
    ensures forall p :: pl.(offset := offset).FileIndex(p) == pl.FileIndex(p)
  {
  }

  /** Rows of two samples whose places in the file are halfway between two row numbers. */
  lemma {:induction false} SameNumbers(pl: Plan, t: nat)
    requires pl.start == t <= 1 && pl.firstChunk == 0 && pl.slice == 2 && pl.offset == t && pl.nSamples == 20
    requires pl.FileIndex(2 + 2 * t) == 3 + t && pl.FileIndex(4 + 2 * t) == 5 + t
    ensures pl.Num(1) == 2 && pl.Num(2) == 2 && 9 <= pl.LastRow()
    ensures t == 1 ==> pl.(offset := 2).Num(1) == 1 && pl.(offset := 2).Num(2) == 2
  {
    hide Plan.FileIndex, RoundHalfEven;
    BaseOf(pl, t);
    HalvesRound();
    IndexIgnoresOffset(pl, 2);
    assert 2 as real / 2 as real == 1 as real && 4 as real / 2 as real == 2 as real;
    RoundOfInt(1);
    RoundOfInt(2);
  }

  /** The run begins in its first chunk, at stream position `t`. */
  method FirstChunk(t: nat) returns (cutter: RunCutter<int>)
    requires t <= 1
    ensures fresh(cutter) && cutter.Valid() && cutter.started && !cutter.done
    ensures cutter.spec == RunSpec(1000 * t, 20, 1.0, 0.0) && cutter.Placement() == (0, 0, t, 0)
    ensures cutter.view == cutter.stream == ChunkSlots([10, 11], [])
    ensures cutter.streamStart == Some(t) && cutter.cursor == cutter.nextPos == 2
    ensures cutter.FileIndex(2 * t) == Some(t)
  {
    hide RunCutter.Valid, RunCutter.File, Carries, GrownFrom, Growing, BookOk, Axis, Knows, ChunkSlots, StartOffset;
    cutter := new RunCutter<int>(RunSpec(1000 * t, 20, 1.0, 0.0));
    StartsAt(cutter.spec, t);
    var ops := cutter.Feed([10, 11], 0, 0.0, [], 0.0, null, []);
    FirstChunkFed(cutter, t);
  }

  /** The grid of the first chunk comes back. */
  method FirstGrid(data: nat -> Row, t: nat) returns (cutter: RunCutter<int>, rows: RowBuffer)
    requires t <= 1 && forall j: nat :: j <= 3 ==> data(j) != []
    ensures fresh(cutter) && fresh(rows) && Tracks(rows, cutter) && rows.slice == 2 && rows.data == data
    ensures rows.start == t && rows.firstChunk == 0 && rows.gridOffset == Some(t) && rows.aligned
    ensures cutter.spec == RunSpec(1000 * t, 20, 1.0, 0.0) && !cutter.done
    ensures cutter.Placement() == (0, 0, t, 0) && cutter.view == cutter.stream == ChunkSlots([10, 11], [])
  {
    hide RunCutter.Valid, RowBuffer.Valid, RunCutter.File, Plan.Base, Plan.FileIndex, ChunkSlots, RowBuffer.IsGrid,
         RowBuffer.Brings;
    cutter := FirstChunk(t);
    rows := BeginRows(cutter, 0, 2, data);
    TheirGrids(rows, data, t);
    PlaceGrid(cutter, rows, [data(0)], 0);
    SameIndex(rows, cutter, 2 * t);
    BaseOf(rows.PlanNow(), t);
  }

  lemma {:induction false} StartsAt(spec: RunSpec, t: nat)
    requires spec == RunSpec(1000 * t, 20, 1.0, 0.0)
    ensures StartOffset(spec, 0.0) == t
  {
    assert ExactOffset(spec, 0.0) == t as real;
    RoundOfInt(t);
  }

  /** What the cutter knows of both chunks. */
  ghost predicate BothFed(cutter: RunCutter<int>, t: nat)
    reads cutter
  {
    && cutter.spec == RunSpec(1000 * t, 20, 1.0, 0.0) && cutter.Placement() == (0, 0, t, 0)
    && cutter.view == ChunkSlots([10, 11], []) + MissedSlots(0) + ChunkSlots([12, 13, 14, 15, 16, 17], [Gap(0, 1)])
  }

  /** One sample is lost right before the second chunk, and the second chunk's grid comes back. */
  method SecondGrid(cutter: RunCutter<int>, rows: RowBuffer, data: nat -> Row, t: nat)
    requires t <= 1 && forall j: nat :: j <= 3 ==> data(j) != []
    requires Tracks(rows, cutter) && rows.slice == 2 && rows.data == data && rows.aligned
    requires rows.start == t && rows.firstChunk == 0 && rows.gridOffset == Some(t)
    requires cutter.spec == RunSpec(1000 * t, 20, 1.0, 0.0) && !cutter.done
    requires cutter.Placement() == (0, 0, t, 0) && cutter.view == cutter.stream == ChunkSlots([10, 11], [])
    modifies cutter, rows
    ensures Tracks(rows, cutter) && BothFed(cutter, t) && rows.gridOffset == Some(t)
    ensures 1 in rows.arrived && 2 in rows.arrived
  {
    hide RunCutter.Valid, RowBuffer.Valid, RunCutter.File, Carries, GrownFrom, Growing, BookOk, Axis, Knows,
         ChunkSlots, RowBuffer.IsGrid, RowBuffer.Brings, RunCutter.Begun;
    TheirGrids(rows, data, t);
    var ops := FeedChunk(cutter, rows, [12, 13, 14, 15, 16, 17], 2, 2.0, [Gap(0, 1)], 0.0, null, cutter.stream);
    SecondChunkFed(cutter, t, 2);
    PlaceGrid(cutter, rows, [data(1 - t), data(2 - t), data(3 - t)], 2);
    BothBrought(rows, StreamEndOf(cutter), t);
  }

  lemma {:induction false} Collided(cutter: RunCutter<int>, rows: RowBuffer, t: nat)
    requires t <= 1 && Tracks(rows, cutter) && BothFed(cutter, t) && rows.slice == 2 && rows.start == t
    requires rows.gridOffset == Some(t)
    ensures var pl := rows.PlanNow();
      && pl.Base() == 2 * t && pl.FileIndex(t) == 0 && pl.FileIndex(2) == 3 - t
      && pl.Num(1) == 2 && pl.Num(2) == 2 && 9 <= pl.LastRow()
      && (t == 1 ==> pl.(offset := 2).Num(1) == 1 && pl.(offset := 2).Num(2) == 2)
  {
    hide RunCutter.Valid, RowBuffer.Valid, Plan.Num, Plan.FileIndex, Plan.Base, Plan.LastRow, RunCutter.FileIndex;
    var pl := rows.PlanNow();
    IndexIs(cutter, rows, t, t);
    IndexIs(cutter, rows, t, 2);
    IndexIs(cutter, rows, t, 2 + 2 * t);
    IndexIs(cutter, rows, t, 4 + 2 * t);
    BaseOf(pl, t);
    SameNumbers(pl, t);
  }

  lemma {:induction false} IndexIs(cutter: RunCutter<int>, rows: RowBuffer, t: nat, p: nat)
    requires t <= 1 && Tracks(rows, cutter) && BothFed(cutter, t) && rows.start == t && rows.gridOffset.Some?
    requires t <= p < 8
    ensures rows.PlanNow().FileIndex(p) == p - t + if 2 <= p then 1 else 0
  {
    hide RunCutter.Valid, RowBuffer.Valid, Plan.FileIndex, RunCutter.FileIndex;
    SecondChunkFed(cutter, t, p);
    SameIndex(rows, cutter, p);
  }

  /** A run of rows of two samples. Its first chunk's grid comes back, one sample is lost
      right before the second chunk, and the second chunk's grid comes back. */
  method LossBetweenChunks(data: nat -> Row, t: nat) returns (cutter: RunCutter<int>, rows: RowBuffer)
    requires t <= 1 && forall j: nat :: j <= 3 ==> data(j) != []
    requires data(1) != data(2)
    ensures Tracks(rows, cutter) && rows.slice == 2 && rows.gridOffset == Some(t) && rows.start == t
    ensures rows.PlanNow().Base() == 2 * t && rows.PlanNow().FileIndex(t) == 0 && rows.PlanNow().FileIndex(2) == 3 - t
    ensures 1 in rows.arrived && 2 in rows.arrived && 9 <= rows.PlanNow().LastRow()
    ensures rows.PlanNow().Num(1) == 2 && rows.PlanNow().Num(2) == 2
    ensures t == 1 ==> rows.PlanNow().(offset := 2).Num(1) == 1 && rows.PlanNow().(offset := 2).Num(2) == 2
    ensures !rows.AllInPlace(rows.PlanNow())
  {
    hide Tracks, BothFed, RowBuffer.Valid, RunCutter.Valid, Plan.Num, Plan.FileIndex, Plan.Base, Plan.LastRow, ChunkSlots;
    cutter, rows := FirstGrid(data, t);
    SecondGrid(cutter, rows, data, t);
    Collided(cutter, rows, t);
  }

  lemma {:induction false} TheirGrids(rows: RowBuffer, data: nat -> Row, t: nat)
    requires rows.start == t <= 1 && rows.firstChunk == 0 && rows.slice == 2 && rows.data == data
    requires forall j: nat :: j <= 3 ==> data(j) != []
    ensures rows.IsGrid([data(0)], 0) && rows.IsGrid([data(1 - t), data(2 - t), data(3 - t)], 2)
  {
    BaseOf(rows.Bounds(), t);
  }

  lemma {:induction false} BothBrought(rows: RowBuffer, end: int, t: nat)
    requires rows.start == t <= 1 && rows.firstChunk == 0 && rows.slice == 2 && 8 <= end
    ensures rows.Brings(rows.Bounds(), 3, 2, end, 1) && rows.Brings(rows.Bounds(), 3, 2, end, 2)
  {
    BaseOf(rows.Bounds(), t);
  }

  /** A single lost sample in rows of two: two rows share a number and one of them is not in
      the file, although the noted index is the first row's in the finished file. */
  method HalfRowOfZeros(data: nat -> Row) returns (cutter: RunCutter<int>, rows: RowBuffer)
    requires data(1) != data(2) && forall j: nat :: j <= 3 ==> data(j) != []
    ensures Tracks(rows, cutter) && rows.slice == 2
    ensures rows.gridOffset.Some? && rows.gridOffset.value == rows.PlanNow().FileIndex(rows.PlanNow().Base())
    ensures 1 in rows.arrived && 2 in rows.arrived && rows.PlanNow().Num(1) == rows.PlanNow().Num(2) == 2
    ensures !rows.AllInPlace(rows.PlanNow())
  {
    hide Tracks, RowBuffer.AllInPlace, Plan.Num, Plan.Base, Plan.LastRow, Plan.FileIndex;
    cutter, rows := LossBetweenChunks(data, 0);
  }

  /** A run that starts in the last row of its first chunk. The first chunk's grid comes back
      before the second chunk is fed, and the index noted then misses the lost sample at the
      run's first row boundary. Two rows share a number that would not if the boundary's index
      in the finished file had been noted. */
  method OffsetNotedEarly(data: nat -> Row) returns (cutter: RunCutter<int>, rows: RowBuffer)
    requires data(1) != data(2) && forall j: nat :: j <= 3 ==> data(j) != []
    ensures Tracks(rows, cutter) && rows.slice == 2
    ensures rows.gridOffset == Some(1) && rows.PlanNow().FileIndex(rows.PlanNow().Base()) == 2
    ensures 1 in rows.arrived && 2 in rows.arrived && rows.PlanNow().Num(1) == rows.PlanNow().Num(2) == 2
    ensures rows.PlanNow().(offset := 2).Num(1) == 1 && rows.PlanNow().(offset := 2).Num(2) == 2
    ensures !rows.AllInPlace(rows.PlanNow())
  {
    hide Tracks, RowBuffer.AllInPlace, Plan.Num, Plan.Base, Plan.LastRow, Plan.FileIndex;
    cutter, rows := LossBetweenChunks(data, 1);
  }
}
