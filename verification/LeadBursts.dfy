/**
 The lead protocol and the burst detector together (`pipeline/streaming.py`, the burst
 thread; `processing/rolling_burst.py`): where the bursts that the detector hands over can
 start, seen from the position that the burst thread has published.

 The burst thread takes the oldest grid, feeds it to the detector, waits until the stage has
 read the bursts handed over, and then publishes the grid's end. Meanwhile the receiver goes on.
 */
module LeadBursts {
  import opened Arith
  import opened BurstTracker
  import opened Lead
  import opened RollingBurst
  import opened RowWindow
  import opened Wrappers

  // ---------- rows and samples ----------

  /** Rows follow each other in the stream, one slice or more apart. */
  ghost predicate Spaced(pos: seq<int>, slice: nat) {
    && (pos != [] ==> 0 <= pos[0])
    && forall i :: 0 <= i < |pos| - 1 ==> pos[i] + slice <= pos[i + 1]
  }

  /** The stream position behind the first `r` rows. */
  function EndOfRows(pos: seq<int>, r: nat, slice: nat): int
    requires r <= |pos|
  {
    if r == 0 then 0 else pos[r - 1] + slice
  }

  lemma {:induction false} PositionKnown(pos: seq<int>, slice: nat, k: nat)
    requires Spaced(pos, slice) && k < |pos|
    ensures 0 <= pos[k]
  {
    if 0 < k {
      PositionKnown(pos, slice, k - 1);
    }
  }

  /** Rows take up at least their own samples. */
  lemma {:induction false} RowsTakeUp(pos: seq<int>, slice: nat, i: nat, j: nat)
    requires Spaced(pos, slice) && i <= j <= |pos|
    ensures 0 <= EndOfRows(pos, i, slice) && EndOfRows(pos, i, slice) + (j - i) * slice <= EndOfRows(pos, j, slice)
    decreases j - i
  {
    if i < j {
      RowsTakeUp(pos, slice, i, j - 1);
      assert (j - i) * slice == (j - 1 - i) * slice + slice;
    } else if 0 < i {
      PositionKnown(pos, slice, i - 1);
    }
  }

  lemma {:induction false} MoreSpaced(pos: seq<int>, slice: nat, n: nat, from: nat)
    requires 0 < slice && Spaced(pos, slice) && EndOfRows(pos, |pos|, slice) <= from
    ensures var more := pos + PositionsOf(n, Some(from), Some(slice));
      && Spaced(more, slice) && EndOfRows(more, |more|, slice) <= from + n * slice
      && forall r :: 0 <= r <= |pos| ==> EndOfRows(more, r, slice) == EndOfRows(pos, r, slice)
  {
    var more := pos + PositionsOf(n, Some(from), Some(slice));
    forall i | 0 <= i < |more| - 1
      ensures more[i] + slice <= more[i + 1]
    {
      if |pos| <= i {
        assert (i + 1 - |pos|) * slice == (i - |pos|) * slice + slice;
      }
    }
    if 0 < n {
      assert (n - 1) * slice + slice == n * slice;
    }
    assert 0 <= n * slice;
  }

  // ---------- how far back a burst can start ----------

  /** At most so many rows lie between an evaluation and the published position. */
  function RowsBehind(z: Sizes): nat {
    if z.evalRows == 0 then 0 else z.evalRows - 1
  }

  /** How far before the published position a burst can start that was not over at the last
      evaluation, when `missing` samples on the way have no row. */
  function Stretch(z: Sizes, missing: nat): nat {
    (RowsBehind(z) + MARGIN_ROWS) * z.slice + z.maxBurst + missing
  }

  /** The samples without rows that the ring's reserve has room for: a guard, and the row by
      which a grid that ends an interval is published late. */
  function Spare(z: Sizes): nat {
    z.guard + if z.evalRows == 0 then 0 else z.slice
  }

  lemma {:induction false} StretchIs(z: Sizes, missing: nat)
    ensures Stretch(z, missing) + Spare(z) == z.Reach() + z.guard + missing
  {
    if 0 < z.evalRows {
      assert (z.evalRows - 1 + 3) * z.slice + z.slice == (z.evalRows + 3) * z.slice;
    }
  }

  /** What lost grids do to the lead: with an unclamped limit every burst that was not over at
      the last evaluation is still in the ring, if and only if no more than the spare samples
      on the way have no row. */
  lemma {:induction false} LossesIff(z: Sizes, missing: nat)
    requires z.Valid() && z.Unclamped()
    ensures AlwaysHeld(z, Stretch(z, missing)) <==> missing <= Spare(z)
  {
    hide AlwaysHeld, Stretch, Spare;
    AlwaysHeldIff(z, Stretch(z, missing));
    StretchIs(z, missing);
  }

  // ---------- bursts handed over ----------

  /** The burst ends behind row `edge` of the `n` rows fed. */
  predicate Ongoing(f: Fingerprint, edge: nat, n: nat) {
    edge <= n - f.stopAgo
  }

  /** A burst of known samples, of at most the longest length, that was not over. */
  predicate Readable(f: Fingerprint, edge: nat, n: nat, maxBurst: nat) {
    f.samples.Some? && Ongoing(f, edge, n) && f.samples.value.1 - f.samples.value.0 <= maxBurst
  }

  /** Such a burst starts within the stretch behind the published position. */
  predicate InStretch(f: Fingerprint, edge: nat, n: nat, z: Sizes, done: nat, missing: nat) {
    Readable(f, edge, n, z.maxBurst) ==>
      && 0 <= f.samples.value.0 <= f.samples.value.1
      && done - Stretch(z, missing) <= f.samples.value.0
  }

  /** The track was seen growing by evaluation `eval`. */
  predicate WasGrowing(t: TrackState, eval: nat) {
    t.growing && t.lastEval == eval
  }

  /** Of the bursts handed over, by their numbers, those of tracks that were growing were not
      over. */
  ghost predicate GrowingOnesOngoing(was: seq<TrackState>, eval: nat, ids: seq<nat>, finished: seq<Fingerprint>,
                                     edge: nat, n: nat) {
    && |ids| == |finished|
    && forall i, j :: 0 <= i < |ids| && 0 <= j < |was| && WasGrowing(was[j], eval) && ids[i] == was[j].id
         ==> Ongoing(finished[i], edge, n)
  }

  /** A burst that ends behind the edge and is not too long starts in the stretch. */
  lemma {:induction false} FingerprintInStretch(t: TrackState, pos: seq<int>, kept: nat, edge: nat, published: nat,
                                                z: Sizes, done: nat, missing: nat)
    requires 0 < z.slice && Spaced(pos, z.slice) && 0 <= t.absStart && 0 <= t.absEnd <= |pos|
    requires edge <= published <= |pos| && published - edge <= RowsBehind(z) + MARGIN_ROWS
    requires missing == done - EndOfRows(pos, edge, z.slice) - (published - edge) * z.slice
    ensures InStretch(FingerprintOf(t, pos, Some(z.slice), kept), edge, |pos|, z, done, missing)
  {
    var f := FingerprintOf(t, pos, Some(z.slice), kept);
    if Readable(f, edge, |pos|, z.maxBurst) {
      RowsTakeUp(pos, z.slice, edge, t.absEnd);
      MulMonotone(0, t.absEnd - edge, z.slice);
      MulMonotone(published - edge, RowsBehind(z) + MARGIN_ROWS, z.slice);
      assert f.samples.value.1 == EndOfRows(pos, t.absEnd, z.slice);
    }
  }

  lemma {:induction false} AllInStretch(ts: seq<TrackState>, pos: seq<int>, kept: nat, edge: nat, published: nat,
                                        z: Sizes, done: nat, missing: nat)
    requires 0 < z.slice && Spaced(pos, z.slice) && Within(ts, |pos|)
    requires edge <= published <= |pos| && published - edge <= RowsBehind(z) + MARGIN_ROWS
    requires missing == done - EndOfRows(pos, edge, z.slice) - (published - edge) * z.slice
    ensures var fs := FingerprintsOf(ts, pos, Some(z.slice), kept);
      forall i :: 0 <= i < |fs| ==> InStretch(fs[i], edge, |pos|, z, done, missing)
  {
    hide InStretch, Stretch, Spaced, EndOfRows, RowsBehind;
    var fs := FingerprintsOf(ts, pos, Some(z.slice), kept);
    forall i | 0 <= i < |fs|
      ensures InStretch(fs[i], edge, |pos|, z, done, missing)
    {
      FingerprintInStretch(ts[i], pos, kept, edge, published, z, done, missing);
    }
  }

  /** A track that was growing at the last evaluation and is handed over now was not over. */
  lemma {:induction false} GrowingWasNotOver(was: Tracks, bs: seq<Burst>, eval: nat, tol: real, out: seq<nat>,
                                             base: int, n: int, i: nat, j: nat)
    requires 0 < eval && AtEdge(was.list, eval - 1, n) && Ledger(was, out)
    requires j < |was.list| && was.list[j].growing && was.list[j].lastEval == eval - 1
    requires var f := Finished(AbsorbAll(was, bs, eval, tol).list, eval, base); i < |f| && f[i].id == was.list[j].id
    ensures n - MARGIN_ROWS <= Finished(AbsorbAll(was, bs, eval, tol).list, eval, base)[i].absEnd
  {
    hide AbsorbAll, Finished;
    var now := AbsorbAll(was, bs, eval, tol).list;
    AbsorbAllKeepsLedger(was, bs, eval, tol, out);
    var k := FromList(now, eval, base, i);
    AbsorbAllExtends(was, bs, eval, tol, j);
    assert k == j;
  }

  /** The bursts handed over that were growing at the last evaluation. */
  lemma {:induction false} NotOver(was: Tracks, bs: seq<Burst>, eval: nat, tol: real, out: seq<nat>, base: int, n: int,
                                   finished: seq<Fingerprint>, pos: seq<int>, slice: nat, kept: nat, edge: nat)
    requires 0 < eval && AtEdge(was.list, eval - 1, n) && Ledger(was, out) && edge == MaxInt(0, n - MARGIN_ROWS)
    requires var f := Finished(AbsorbAll(was, bs, eval, tol).list, eval, base);
             Within(f, |pos|) && finished == FingerprintsOf(f, pos, Some(slice), kept)
    ensures GrowingOnesOngoing(was.list, eval - 1, Ids(Finished(AbsorbAll(was, bs, eval, tol).list, eval, base)), finished,
                               edge, |pos|)
  {
    hide AbsorbAll, Finished, Ledger, AtEdge;
    var f := Finished(AbsorbAll(was, bs, eval, tol).list, eval, base);
    forall i: nat, j: nat | i < |finished| && j < |was.list| && WasGrowing(was.list[j], eval - 1)
                            && Ids(f)[i] == was.list[j].id
      ensures Ongoing(finished[i], edge, |pos|)
    {
      GrowingWasNotOver(was, bs, eval, tol, out, base, n, i, j);
    }
  }

  lemma {:induction false} NoneOver(was: seq<TrackState>, eval: nat, edge: nat, n: nat)
    ensures GrowingOnesOngoing(was, eval, [], [], edge, n)
  {
  }

  lemma {:induction false} SplitRows(p: nat, n: nat, d: nat)
    requires p <= n
    ensures n * d == p * d + (n - p) * d
  {
  }

  // ---------- the burst thread ----------

  class BurstThread<Row(!new, 0)> {
    const lead: LeadProtocol
    const det: RollingBurstDetector<Row>
    /** The oldest grid was fed and its end is not yet published. */
    var fed: bool
    /** The rows of published grids, and the samples before the published position that no
        row covers. */
    ghost var published: nat
    ghost var uncovered: nat
    /** The bursts being read, and the first row that was within the margin of the window's
        edge when the detector last evaluated before. */
    ghost var handed: seq<Fingerprint>
    ghost var edge: nat

    /** Rows lie where their samples are, and the published position is behind them. */
    ghost predicate Covered()
      reads `fed, `published, `uncovered, lead`doneEnd, lead`grids, det.rows`pos
    {
      var pos, slice := det.rows.pos, lead.z.slice;
      && 0 < slice && Spaced(pos, slice) && published <= |pos|
      && lead.doneEnd == published * slice + uncovered
      && EndOfRows(pos, published, slice) <= lead.doneEnd
      && (!fed ==> published == |pos|)
      && (fed ==> lead.grids != [] && |pos| == published + lead.grids[0].n / slice
                  && EndOfRows(pos, |pos|, slice) <= EndOf(lead.grids[0], slice))
    }

    /** Samples from the edge to the published position that no row covers. */
    ghost function Missing(): int
      requires edge <= published <= |det.rows.pos|
      reads `edge, `published, lead`doneEnd, det.rows`pos
    {
      lead.doneEnd - EndOfRows(det.rows.pos, edge, lead.z.slice) - (published - edge) * lead.z.slice
    }

    ghost predicate HandedOk()
      reads `fed, `edge, `published, `handed, lead`doneEnd, det.rows`pos
    {
      fed ==>
        && edge <= published <= |det.rows.pos| && 0 <= Missing()
        && forall i :: 0 <= i < |handed| ==>
             InStretch(handed[i], edge, |det.rows.pos|, lead.z, lead.doneEnd, Missing())
    }

    ghost predicate Valid()
      reads this, lead, det, det.rows, det.rows.window, det.rows.rowPos, det.tracker, det.tracker.tracked
    {
      && lead.Valid() && det.Valid() && det.evalInterval == lead.z.evalRows
      && Covered() && HandedOk()
    }

    constructor (z: Sizes, windowRows: nat, tol: real)
      requires z.Valid() && 0 < windowRows && 0.0 < tol
      ensures Valid() && !fed && uncovered == 0 && lead.z == z
      ensures fresh(lead) && fresh(det) && fresh(det.rows) && fresh(det.rows.window) && fresh(det.rows.rowPos)
      ensures fresh(det.tracker) && det.tracker.tracked == []
      ensures lead.grids == [] && lead.total == lead.doneEnd == 0 && lead.tail == lead.lost == 0
      ensures det.rows.rows == [] && det.rows.pos == [] && det.rows.size == windowRows && det.tracker.tol == tol
      ensures det.tracker.tracks == Tracks([], 0) && det.tracker.out == []
      ensures det.rowsSinceEval == 0 && det.tracker.evalCount == 0
    {
      lead := new LeadProtocol(z);
      det := new RollingBurstDetector(windowRows, z.evalRows, tol);
      fed, published, uncovered, handed, edge := false, 0, 0, [], 0;
    }

    // ---------- the receiver, and lost grids ----------

    /** The receiver writes a chunk, or waits; at any time, also while the stage reads. */
    method Receive(n: nat) returns (written: bool)
      requires Valid() && n <= lead.z.chunk
      modifies lead`total, lead`grids
      ensures Valid()
      ensures written ==> lead.total == old(lead.total) + n && lead.grids == old(lead.grids) + [Chunk(old(lead.total), n)]
      ensures !written ==> lead.total == old(lead.total) && lead.grids == old(lead.grids)
      ensures written <==> old(lead.total) + n - lead.doneEnd <= lead.z.Limit()
    {
      hide LeadProtocol.Valid, RollingBurstDetector.Valid, InStretch, Spaced, EndOfRows;
      written := lead.Receive(n);
    }

    /** The oldest grid will never come. */
    method LoseGrid()
      requires Valid() && !fed && lead.grids != []
      modifies lead`grids, lead`lost
      ensures Valid() && lead.grids == old(lead.grids)[1..]
      ensures lead.lost == old(lead.lost) + old(lead.grids)[0].n
    {
      hide LeadProtocol.Valid, RollingBurstDetector.Valid, InStretch, Spaced, EndOfRows;
      lead.LoseGrid();
    }

    // ---------- feeding a grid ----------

    /** The first row within the margin of the edge at the last evaluation. */
    ghost function Edge(): nat
      requires det.rowsSinceEval <= |det.rows.pos|
      reads det`rowsSinceEval, det.rows`pos
    {
      MaxInt(0, |det.rows.pos| - det.rowsSinceEval - MARGIN_ROWS)
    }

    /** The detector has taken `n` rows, and finished these bursts. */
    ghost predicate Took(was: Tracks, evalCount: nat, since: nat, n: nat, detect: seq<Row> -> seq<Detection>,
                         finished: seq<Fingerprint>)
      reads det, det.rows, det.tracker
    {
      var r := After(was, evalCount, since, det.rows.rows, n, det.rows.size, det.evalInterval, det.tracker.tol, detect);
      && det.tracker.tracks == r.tracks && det.tracker.evalCount == r.evalCount && det.rowsSinceEval == r.since
      && Within(r.done, |det.rows.pos|)
      && finished == FingerprintsOf(r.done, det.rows.pos, Some(lead.z.slice), 2 * det.rows.size)
    }

    /** Feeds the detector rows from stream position `from` on, and says where the bursts it
        finishes start. */
    method Detect(grid: seq<Row>, from: nat, detect: seq<Row> -> seq<Detection>, ghost e: nat, ghost missing: nat)
      returns (finished: seq<Fingerprint>)
      requires det.Valid() && det.evalInterval == lead.z.evalRows && 0 < lead.z.slice
      requires AllSound(detect) && det.rows.writePos + |grid| <= 2 * det.rows.size
      requires Spaced(det.rows.pos, lead.z.slice) && EndOfRows(det.rows.pos, |det.rows.pos|, lead.z.slice) <= from
      requires det.rowsSinceEval <= |det.rows.pos| && e == Edge()
      requires missing == lead.doneEnd - EndOfRows(det.rows.pos, e, lead.z.slice) - (|det.rows.pos| - e) * lead.z.slice
      modifies det, det.rows, det.rows.window, det.rows.rowPos, det.tracker, det.tracker.tracked
      ensures det.Valid() && det.rows.pos == old(det.rows.pos) + PositionsOf(|grid|, Some(from), Some(lead.z.slice))
      ensures det.rows.rows == old(det.rows.rows) + grid
      ensures forall i :: 0 <= i < |finished| ==>
        InStretch(finished[i], e, |det.rows.pos|, lead.z, lead.doneEnd, missing)
      ensures |det.tracker.out| == |old(det.tracker.out)| + |finished|
      ensures GrowingOnesOngoing(old(det.tracker.tracks.list), old(det.tracker.evalCount),
                                 det.tracker.out[|old(det.tracker.out)|..], finished, e, |det.rows.pos|)
      ensures forall t :: t in det.tracker.tracked ==> t in old(det.tracker.tracked) || fresh(t)
      ensures Took(old(det.tracker.tracks), old(det.tracker.evalCount), old(det.rowsSinceEval), |grid|, detect, finished)
    {
      hide RollingBurstDetector.Valid, Spaced, EndOfRows, AbsorbAll, Kept, Finished, AllSound, InStretch, Stretch, AtEdge,
           Ledger, FingerprintsOf, PositionsOf, GrowingOnesOngoing, Ids, Within, RollingWindow.Valid;
      ghost var pos, since := det.rows.pos, det.rowsSinceEval;
      ghost var was, out, evalCount := det.tracker.tracks, det.tracker.out, det.tracker.evalCount;
      DetectorBefore();
      MoreSpaced(pos, lead.z.slice, |grid|, from);
      finished := det.Feed(grid, Some(from), Some(lead.z.slice), detect);
      if finished != [] {
        ghost var eval, base := evalCount + 1, |det.rows.rows| - MinInt(|det.rows.rows|, det.rows.size);
        ghost var g := LastRows(det.rows.rows, det.rows.size);
        ghost var bs := AllAbsolute(detect(g), |det.rows.rows| - |g|, |g|);
        ghost var f := Finished(AbsorbAll(was, bs, eval, det.tracker.tol).list, eval, base);
        AllInStretch(f, det.rows.pos, 2 * det.rows.size, e, |pos|, lead.z, lead.doneEnd, missing);
        NotOver(was, bs, eval, det.tracker.tol, out, base, |pos| - since, finished, det.rows.pos, lead.z.slice,
                2 * det.rows.size, e);
        assert det.tracker.out[|out|..] == Ids(f);
      } else {
        NoneOver(was.list, evalCount, e, |det.rows.pos|);
        assert det.tracker.out[|out|..] == [];
      }
    }

    lemma {:induction false} DetectorBefore()
      requires det.Valid() && det.evalInterval == lead.z.evalRows
      ensures |det.rows.pos| == |det.rows.rows|
      ensures det.evalInterval <= det.rows.size ==> det.rowsSinceEval <= RowsBehind(lead.z)
      ensures AtEdge(det.tracker.tracks.list, det.tracker.evalCount, |det.rows.pos| - det.rowsSinceEval)
      ensures Ledger(det.tracker.tracks, det.tracker.out)
    {
    }

    lemma {:induction false} BeforeFeed()
      requires Valid() && !fed && lead.grids != []
      ensures det.rowsSinceEval <= |det.rows.pos| == published
      ensures 0 < lead.z.slice && Spaced(det.rows.pos, lead.z.slice)
      ensures EndOfRows(det.rows.pos, published, lead.z.slice) <= lead.doneEnd <= lead.grids[0].start
    {
    }

    /** The burst thread feeds the oldest grid to the detector, and hands its bursts over. A
        burst that was growing at the last evaluation is among those that were not over. */
    method FeedGrid(grid: seq<Row>, detect: seq<Row> -> seq<Detection>) returns (finished: seq<Fingerprint>)
      requires Valid() && !fed && lead.grids != [] && |grid| == lead.grids[0].n / lead.z.slice
      requires AllSound(detect) && det.rows.writePos + |grid| <= 2 * det.rows.size
      modifies `fed, `handed, `edge, det, det.rows, det.rows.window, det.rows.rowPos, det.tracker, det.tracker.tracked
      ensures Valid() && fed && handed == finished
      ensures old(det.rowsSinceEval) <= |old(det.rows.pos)| && edge == old(Edge())
      ensures |det.tracker.out| == |old(det.tracker.out)| + |finished|
      ensures GrowingOnesOngoing(old(det.tracker.tracks.list), old(det.tracker.evalCount),
                                 det.tracker.out[|old(det.tracker.out)|..], finished, edge, |det.rows.pos|)
      ensures forall t :: t in det.tracker.tracked ==> t in old(det.tracker.tracked) || fresh(t)
      ensures det.rows.rows == old(det.rows.rows) + grid
      ensures det.rows.pos == old(det.rows.pos) + PositionsOf(|grid|, Some(lead.grids[0].start), Some(lead.z.slice))
      ensures Took(old(det.tracker.tracks), old(det.tracker.evalCount), old(det.rowsSinceEval), |grid|, detect, finished)
    {
      hide LeadProtocol.Valid, RollingBurstDetector.Valid, Spaced, EndOfRows, AllSound, InStretch, Stretch,
           GrowingOnesOngoing, PositionsOf, Took;
      var z, from := lead.z, lead.grids[0].start;
      ghost var pos := det.rows.pos;
      BeforeFeed();
      edge := Edge();
      RowsTakeUp(pos, z.slice, edge, |pos|);
      MoreSpaced(pos, z.slice, |grid|, from);
      finished := Detect(grid, from, detect, edge, Missing());
      fed, handed := true, finished;
    }

    // ---------- publishing ----------

    /** The stage is idle: the grid's end is published. */
    method Publish()
      requires Valid() && fed
      modifies this, lead`doneEnd, lead`grids, lead`tail, lead`lost
      ensures Valid() && !fed && lead.grids == old(lead.grids)[1..] && lead.doneEnd == old(lead.NextDone())
      ensures uncovered == old(uncovered) + old(lead.tail) + old(lead.lost)
    {
      hide RollingBurstDetector.Valid, Spaced, EndOfRows, InStretch, Stretch;
      NextStart();
      uncovered := uncovered + lead.tail + lead.lost;
      lead.FinishGrid();
      published := |det.rows.pos|;
      fed, handed := false, [];
    }

    lemma {:induction false} NextStart()
      requires Valid() && fed
      ensures lead.grids != [] && 0 < lead.z.slice
      ensures EndOf(lead.grids[0], lead.z.slice)
           == lead.doneEnd + lead.tail + lead.lost + (|det.rows.pos| - published) * lead.z.slice
      ensures |det.rows.pos| * lead.z.slice
           == published * lead.z.slice + (|det.rows.pos| - published) * lead.z.slice
    {
      hide RollingBurstDetector.Valid, Spaced, InStretch, HandedOk;
      SplitRows(published, |det.rows.pos|, lead.z.slice);
    }

    // ---------- what holds in every state ----------

    /** Safety of the whole: while the stage reads, each burst that was not over at the last
        evaluation and is at most of the longest length has its guarded start in the ring,
        however far the receiver has come, as long as no more than the spare samples since
        the edge have no row. */
    lemma {:induction false} HandedIsHeld(i: nat)
      requires Valid() && fed && i < |handed| && lead.z.Unclamped()
      requires edge <= published <= |det.rows.pos|
      requires Readable(handed[i], edge, |det.rows.pos|, lead.z.maxBurst) && Missing() <= Spare(lead.z)
      ensures handed[i].samples.Some? && 0 <= handed[i].samples.value.0
      ensures var (a, b) := handed[i].samples.value;
        Oldest(lead.total, lead.z.capacity) <= ReadRange(a, b, lead.z.guard, lead.z.maxBurst).0
    {
      hide Stretch, Spare, RollingBurstDetector.Valid, LeadProtocol.Valid;
      StretchIs(lead.z, Missing());
      assert InStretch(handed[i], edge, |det.rows.pos|, lead.z, lead.doneEnd, Missing());
      lead.BurstIsHeld(handed[i].samples.value.0, handed[i].samples.value.1);
    }

    /** What is missing since the edge was lost with a grid or lies behind a chunk's whole rows,
        at some time: nothing, when every grid came and every chunk was whole rows. */
    lemma {:induction false} MissingIsUncovered()
      requires Valid() && fed
      ensures edge <= published <= |det.rows.pos| && 0 <= Missing() <= uncovered
    {
      hide RollingBurstDetector.Valid, LeadProtocol.Valid, Spaced, InStretch;
      var pos, slice := det.rows.pos, lead.z.slice;
      RowsTakeUp(pos, slice, 0, edge);
      assert published * slice == edge * slice + (published - edge) * slice;
    }
  }

  // ---------- the documented reach ----------

  /** Rows between two evaluations when every grid has `n` rows: the interval, rounded up to
      whole grids. */
  function Spacing(interval: nat, n: nat): nat
    requires 0 < n
  {
    if interval == 0 then n else (interval + n - 1) / n * n
  }

  lemma {:induction false} SpacingIs(interval: nat, n: nat, k: nat)
    requires 0 < n && 0 < k && (k - 1) * n < interval <= k * n
    ensures Spacing(interval, n) == k * n
  {
    QuotientBound(interval + n - 1, n, k);
    QuotientBound(interval + n - 1, n, k + 1);
    assert (k + 1) * n == k * n + n && (k - 1) * n == k * n - n;
    assert (interval + n - 1) / n == k;
  }

  /** That is how the detector evaluates: from one evaluation on, grids of `n` rows bring the
      next after exactly so many rows, and none before. */
  method FeedUntilEvaluation<Row(!new, 0)>(det: RollingBurstDetector<Row>, grid: seq<Row>,
                                           detect: seq<Row> -> seq<Detection>) returns (grids: nat)
    requires det.Valid() && AllSound(detect) && det.rowsSinceEval == 0
    requires 0 < |grid| <= det.rows.size && det.evalInterval <= MinInt(|det.rows.rows|, det.rows.size)
    modifies det, det.rows, det.rows.window, det.rows.rowPos, det.tracker, det.tracker.tracked
    ensures det.Valid() && det.rowsSinceEval == 0 && det.tracker.evalCount == old(det.tracker.evalCount) + 1
    ensures 0 < grids && grids * |grid| == Spacing(det.evalInterval, |grid|)
    ensures |det.rows.rows| == |old(det.rows.rows)| + Spacing(det.evalInterval, |grid|)
  {
    hide RollingBurstDetector.Valid, Evaluated, Kept, Finished, AllSound, FingerprintsOf, Within;
    var evalCount := det.tracker.evalCount;
    ghost var had := |det.rows.rows|;
    grids := 0;
    while true
      invariant det.Valid() && det.tracker.evalCount == evalCount
      invariant det.rowsSinceEval == grids * |grid| && |det.rows.rows| == had + grids * |grid|
      invariant grids == 0 || grids * |grid| < det.evalInterval
      invariant forall t :: t in det.tracker.tracked ==> t in old(det.tracker.tracked) || fresh(t)
      decreases det.evalInterval + 1 - grids
    {
      WritesFit(det, grid);
      MoreRows(grids, |grid|);
      assert forall i :: 0 <= i < |det.tracker.tracked| ==> det.tracker.tracked[i] in det.tracker.tracked;
      var finished := det.Feed(grid, None, None, detect);
      grids := grids + 1;
      if det.tracker.evalCount != evalCount {
        break;
      }
    }
    if det.evalInterval == 0 {
    } else {
      SpacingIs(det.evalInterval, |grid|, grids);
    }
  }

  lemma {:induction false} MoreRows(k: nat, n: nat)
    requires 0 < n
    ensures (k + 1) * n == k * n + n && k <= k * n
  {
  }

  lemma {:induction false} WritesFit<Row(!new, 0)>(det: RollingBurstDetector<Row>, grid: seq<Row>)
    requires det.Valid() && |grid| <= det.rows.size
    ensures det.rows.writePos + |grid| <= 2 * det.rows.size
  {
  }

  /** A burst, in samples, of at most the longest length that was within the margin of the
      edge when the detector evaluated after `rows` rows. */
  predicate AtTheEdge(z: Sizes, rows: nat, start: int, stop: int) {
    (rows - MARGIN_ROWS) * z.slice <= stop && stop - start <= z.maxBurst
  }

  /** The reach counted from the end of the grid that is being finished: no burst that was at
      the edge at the last evaluation, `spacing` rows before, starts before it. */
  ghost predicate DocumentedReach(z: Sizes, spacing: nat) {
    forall rows: nat, start: int, stop: int :: AtTheEdge(z, rows, start, stop) ==>
      (rows + spacing) * z.slice - z.Reach() <= start
  }

  /** It holds exactly when a whole number of grids makes an interval. */
  lemma {:induction false} DocumentedReachIff(z: Sizes, n: nat)
    requires z.Valid() && 0 < n
    ensures DocumentedReach(z, Spacing(z.evalRows, n)) <==> 0 < z.evalRows && z.evalRows % n == 0
  {
    hide Spacing;
    var s := Spacing(z.evalRows, n);
    SpacingExact(z.evalRows, n);
    if s <= z.evalRows {
      forall rows: nat, start: int, stop: int | AtTheEdge(z, rows, start, stop)
        ensures (rows + s) * z.slice - z.Reach() <= start
      {
        MulMonotone(s, z.evalRows, z.slice);
        ReachInRows(z, rows, s);
      }
    } else {
      MulMonotone(z.evalRows + 1, s, z.slice);
      assert (z.evalRows + 1) * z.slice == z.evalRows * z.slice + z.slice;
      ReachInRows(z, MARGIN_ROWS, s);
      assert AtTheEdge(z, MARGIN_ROWS, -(z.maxBurst as int), 0);
    }
  }

  lemma {:induction false} ReachInRows(z: Sizes, rows: nat, s: nat)
    ensures (rows + s) * z.slice - z.Reach()
         == (rows - MARGIN_ROWS) * z.slice + s * z.slice - z.evalRows * z.slice - z.maxBurst
  {
  }

  lemma {:induction false} SpacingExact(interval: nat, n: nat)
    requires 0 < n
    ensures interval <= Spacing(interval, n)
    ensures Spacing(interval, n) == interval <==> 0 < interval && interval % n == 0
  {
    var q, r := interval / n, interval % n;
    assert interval == q * n + r;
    if 0 < interval {
      assert (q - 1) * n == q * n - n && (q + 1) * n == q * n + n;
      if r == 0 {
        assert 0 < q by {
          if q <= 0 { MulMonotone(q, 0, n); }
        }
        SpacingIs(interval, n, q);
      } else {
        SpacingIs(interval, n, q + 1);
      }
    }
  }

  // ---------- a burst that starts before the documented reach ----------

  /** Sees one burst, of rows 1 to 3, in a window of six or of twelve rows. */
  function OneBurst(g: seq<int>): seq<Detection> {
    if |g| == 6 || |g| == 12 then [Detection(1, 4, 0.0, 0.0, 0.0, 0.0)] else []
  }

  function Seen(eval: nat, growing: bool): TrackState {
    TrackState(0, 1, 4, 0.0, 0.0, 0.0, 0.0, 0.0, eval, growing, false)
  }

  /** Three more rows, with `n` rows fed then. */
  function ThreeMore(ts: Tracks, evalCount: nat, since: nat, n: nat): Step {
    After(ts, evalCount, since, Copies(n, 0), 3, 12, 4, 1.0, OneBurst)
  }

  lemma {:induction false} FirstEvaluation()
    ensures ThreeMore(Tracks([], 0), 0, 0, 3) == Step(Tracks([], 0), 0, 3, [])
    ensures ThreeMore(Tracks([], 0), 0, 3, 6) == Step(Tracks([Seen(1, true)], 1), 1, 0, [])
  {
    var g := LastRows(Copies(6, 0), 12);
    var b := Absolute(OneBurst(g)[0], 0, 6);
    assert |g| == 6 && AllAbsolute(OneBurst(g), 0, 6) == [b];
    assert [b][..0] == [];
    var ts := AbsorbAll(Tracks([], 0), [b], 1, 1.0);
    assert AbsorbAll(Tracks([], 0), [], 1, 1.0) == Tracks([], 0);
    assert ts == AbsorbScan(Tracks([], 0), b, 1, 1.0) == Tracks([Seen(1, true)], 1);
    assert ts.list[..0] == [];
    assert Kept(ts.list[..0], 1, 0) == [] && Finished(ts.list[..0], 1, 0) == [];
  }

  lemma {:induction false} SecondEvaluation()
    ensures ThreeMore(Tracks([Seen(1, true)], 1), 1, 0, 9) == Step(Tracks([Seen(1, true)], 1), 1, 3, [])
    ensures ThreeMore(Tracks([Seen(1, true)], 1), 1, 3, 12).done == [Seen(2, false)]
  {
    var g := LastRows(Copies(12, 0), 12);
    var b := Absolute(OneBurst(g)[0], 0, 12);
    var was := Tracks([Seen(1, true)], 1);
    assert |g| == 12 && AllAbsolute(OneBurst(g), 0, 12) == [b];
    assert [b][..0] == [];
    assert was.list[0].Matches(b, 1.0);
    assert FirstMatch(was.list, b, 1.0) == 0;
    assert AbsorbAll(was, [], 2, 1.0) == was;
    var ts := AbsorbAll(was, [b], 2, 1.0);
    assert ts == AbsorbScan(was, b, 2, 1.0) == Tracks([Seen(2, false)], 1);
    assert ts.list[..0] == [];
    assert Finished(ts.list[..0], 2, 0) == [];
  }

  const SIZES := Sizes(100, 3, 1, 4, 3, 2)

  /** Between two grids: everything written was fed and published. */
  ghost predicate CaughtUp(t: BurstThread<int>, n: nat)
    reads t, t.lead, t.det, t.det.rows, t.det.tracker
  {
    && !t.fed && t.lead.z == SIZES && t.lead.grids == [] && t.lead.total == t.lead.doneEnd == n && t.uncovered == 0
    && |t.det.rows.rows| == n && t.det.rows.rows == Copies(n, 0) && t.det.rows.pos == Positions(n)
    && t.det.rows.size == 12 && t.det.tracker.tol == 1.0
  }

  function Positions(n: nat): (r: seq<int>)
    ensures |r| == n && forall i :: 0 <= i < n ==> r[i] == i
  {
    seq(n, i => i)
  }

  lemma {:induction false} ThreeRows(n: nat)
    ensures Copies(n, 0) + [0, 0, 0] == Copies(n + 3, 0)
    ensures Positions(n) + PositionsOf(3, Some(n), Some(1)) == Positions(n + 3)
  {
  }

  /** A chunk of three rows is written and its grid is fed. */
  method NextGrid(t: BurstThread<int>, n: nat) returns (finished: seq<Fingerprint>)
    requires t.Valid() && CaughtUp(t, n)
    modifies t`fed, t`handed, t`edge, t.lead`total, t.lead`grids
    modifies t.det, t.det.rows, t.det.rows.window, t.det.rows.rowPos, t.det.tracker, t.det.tracker.tracked
    ensures t.Valid() && t.fed && t.handed == finished
    ensures t.lead.grids == [Chunk(n, 3)] && t.lead.total == n + 3 && t.lead.doneEnd == n && t.uncovered == 0
    ensures t.det.rows.rows == Copies(n + 3, 0) && t.det.rows.pos == Positions(n + 3)
    ensures t.det.evalInterval == 4
    ensures t.Took(old(t.det.tracker.tracks), old(t.det.tracker.evalCount), old(t.det.rowsSinceEval), 3, OneBurst, finished)
    ensures old(t.det.rowsSinceEval) <= n && t.edge == MaxInt(0, n - old(t.det.rowsSinceEval) - MARGIN_ROWS)
    ensures forall k :: k in t.det.tracker.tracked ==> k in old(t.det.tracker.tracked) || fresh(k)
  {
    hide BurstThread.Valid, BurstThread.Took, PositionsOf;
    IntervalIs(t);
    var written := t.Receive(3);
    finished := t.FeedGrid([0, 0, 0], OneBurst);
    ThreeRows(n);
  }

  lemma {:induction false} IntervalIs(t: BurstThread<int>)
    requires t.Valid() && t.lead.z == SIZES
    ensures t.det.evalInterval == 4 && t.det.rows.writePos < t.det.rows.size
    ensures AllSound(OneBurst)
  {
  }

  method NextPublished(t: BurstThread<int>, n: nat)
    requires t.Valid() && CaughtUp(t, n)
    modifies t, t.lead, t.det, t.det.rows, t.det.rows.window, t.det.rows.rowPos, t.det.tracker, t.det.tracker.tracked
    ensures t.Valid() && CaughtUp(t, n + 3)
    ensures var r := ThreeMore(old(t.det.tracker.tracks), old(t.det.tracker.evalCount), old(t.det.rowsSinceEval), n + 3);
      t.det.tracker.tracks == r.tracks && t.det.tracker.evalCount == r.evalCount && t.det.rowsSinceEval == r.since
    ensures forall k :: k in t.det.tracker.tracked ==> k in old(t.det.tracker.tracked) || fresh(k)
  {
    hide BurstThread.Valid, After;
    var finished := NextGrid(t, n);
    NothingLost(t, n);
    t.Publish();
  }

  lemma {:induction false} NothingLost(t: BurstThread<int>, n: nat)
    requires t.Valid() && t.lead.z == SIZES && t.lead.grids == [Chunk(n, 3)] && t.lead.doneEnd == n
    ensures t.lead.tail == t.lead.lost == 0 && t.lead.NextDone() == n + 3
  {
  }

  /** The burst thread is finishing the grid that ends at sample 12 and hands over a burst of
      the longest length that starts at sample 1, before the documented reach behind 12. It
      was at the edge when the detector last evaluated, six rows before, more than the interval
      of four. It is still in reach of the published position, 9. */
  method EarlierThanDocumented() returns (t: BurstThread<int>)
    ensures t.Valid() && t.fed && t.lead.z.Unclamped() && t.uncovered == 0
    ensures t.lead.doneEnd == 9 && t.lead.grids == [Chunk(9, 3)] && EndOf(t.lead.grids[0], t.lead.z.slice) == 12
    ensures |t.handed| == 1 && t.handed[0].samples == Some((1, 4)) && 4 - 1 == t.lead.z.maxBurst
    ensures Ongoing(t.handed[0], t.edge, |t.det.rows.pos|)
    ensures 1 < 12 - t.lead.z.Reach() && 9 - t.lead.z.Reach() <= 1
  {
    hide BurstThread.Valid, After, RollingBurstDetector.Valid, LeadProtocol.Valid;
    t := new BurstThread<int>(SIZES, 12, 1.0);
    NothingFed(t);
    FirstEvaluation();
    SecondEvaluation();
    NextPublished(t, 0);
    assert forall i :: 0 <= i < |t.det.tracker.tracked| ==> t.det.tracker.tracked[i] in t.det.tracker.tracked;
    NextPublished(t, 3);
    assert forall i :: 0 <= i < |t.det.tracker.tracked| ==> t.det.tracker.tracked[i] in t.det.tracker.tracked;
    NextPublished(t, 6);
    assert forall i :: 0 <= i < |t.det.tracker.tracked| ==> t.det.tracker.tracked[i] in t.det.tracker.tracked;
    var finished := NextGrid(t, 9);
    assert EndOf(Chunk(9, 3), 1) == 12;
  }

  lemma {:induction false} NothingFed(t: BurstThread<int>)
    requires t.det.rows.rows == [] && t.det.rows.pos == []
    ensures t.det.rows.rows == Copies(0, 0) && t.det.rows.pos == Positions(0)
  {
  }
}
