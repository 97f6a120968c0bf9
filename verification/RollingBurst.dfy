/**
 The rolling burst detector as a whole (`processing/rolling_burst.py`, `feed` and
 `_evaluate`): rows in, and every few rows an evaluation of the window, which is a plain
 function of the tracks before it and of the last rows fed.
 */
module RollingBurst {
  import opened Arith
  import opened BurstTracker
  import opened RowWindow
  import opened Wrappers

  /** What burst detection reports about a grid; rows count from the grid's first. */
  datatype Detection = Detection(startRow: nat, endRow: nat, center: real, bandwidth: real,
                                 peakPower: real, peakFreq: real)

  /** A detection within a grid of `n` rows. */
  predicate Sound(d: Detection, n: nat) {
    d.startRow <= n && d.endRow <= n && 0.0 <= d.bandwidth
  }

  ghost predicate AllSound<Row(!new)>(detect: seq<Row> -> seq<Detection>) {
    forall g :: forall j :: 0 <= j < |detect(g)| ==> Sound(detect(g)[j], |g|)
  }

  const MARGIN_ROWS := 3

  /** A detection on absolute rows, for a grid of `n` rows that starts at row `base`. */
  function Absolute(d: Detection, base: nat, n: nat): Burst {
    Burst(base + d.startRow, base + d.endRow, d.center, d.bandwidth, d.peakPower, d.peakFreq,
          d.endRow >= n - MARGIN_ROWS)
  }

  function AllAbsolute(ds: seq<Detection>, base: nat, n: nat): (r: seq<Burst>)
    ensures |r| == |ds| && forall i :: 0 <= i < |ds| ==> r[i] == Absolute(ds[i], base, n)
  {
    seq(|ds|, i requires 0 <= i < |ds| => Absolute(ds[i], base, n))
  }

  /** The last rows of a history, at most `size`. */
  function LastRows<Row>(rows: seq<Row>, size: nat): seq<Row> {
    rows[|rows| - MinInt(|rows|, size)..]
  }

  /** The tracks after all detections of one evaluation, found by plain scans. */
  function Evaluated<Row>(ts: Tracks, rows: seq<Row>, size: nat, detect: seq<Row> -> seq<Detection>,
                          eval: nat, tol: real): Tracks {
    var g := LastRows(rows, size);
    AbsorbAll(ts, AllAbsolute(detect(g), |rows| - |g|, |g|), eval, tol)
  }

  /** The detection `d` of a window that starts at row `base` and ends behind row `total`, as
      evaluation `eval` sights it: growing when it ends at most three rows before the edge. */
  ghost predicate Sights(e: Sighting, d: Detection, base: nat, total: nat, eval: nat) {
    && e.eval == eval && e.burst.absStart - base == d.startRow && e.burst.absEnd - base == d.endRow
    && e.burst.center == d.center && e.burst.bandwidth == d.bandwidth
    && e.burst.peakPower == d.peakPower && e.burst.peakFreq == d.peakFreq
    && (e.burst.growing <==> total - e.burst.absEnd <= 3)
  }

  ghost predicate SightsOne(e: Sighting, found: seq<Detection>, base: nat, total: nat, eval: nat) {
    exists j :: 0 <= j < |found| && Sights(e, found[j], base, total, eval)
  }

  /** The detections behind the tracks are those of before and the new ones, and no others. */
  ghost predicate AllSighted(was: seq<seq<Sighting>>, now: seq<seq<Sighting>>, found: seq<Detection>, base: nat,
                             total: nat, eval: nat) {
    forall e :: Seen(now, e) <==> Seen(was, e) || SightsOne(e, found, base, total, eval)
  }

  lemma {:induction false} SightsIff(d: Detection, base: nat, n: nat, total: nat, eval: nat)
    requires total == base + n
    ensures Sights(Sighting(Absolute(d, base, n), eval), d, base, total, eval)
    ensures forall e :: Sights(e, d, base, total, eval) ==> e == Sighting(Absolute(d, base, n), eval)
  {
  }

  lemma {:induction false} OneMoreSighted(was: seq<seq<Sighting>>, now: seq<seq<Sighting>>, now': seq<seq<Sighting>>,
                                          found: seq<Detection>, j: nat, base: nat, n: nat, eval: nat)
    requires j < |found| && AllSighted(was, now, found[..j], base, base + n, eval)
    requires Gains(now, now', Sighting(Absolute(found[j], base, n), eval))
    ensures AllSighted(was, now', found[..j + 1], base, base + n, eval)
  {
    hide Gains, Absolute, Sights, Seen;
    var d := Sighting(Absolute(found[j], base, n), eval);
    GainsSeen(now, now', d);
    assert found[..j + 1] == found[..j] + [found[j]];
    SightsIff(found[j], base, n, base + n, eval);
  }

  /** What feeding a grid leaves: the tracks, the evaluations, the rows since the last one, and
      the tracks that are handed over. */
  datatype Step = Step(tracks: Tracks, evalCount: nat, since: nat, done: seq<TrackState>)

  /** Feeding `n` rows, the last of `rows`: an evaluation when enough have come. */
  function After<Row>(ts: Tracks, evalCount: nat, since: nat, rows: seq<Row>, n: nat, size: nat, interval: nat,
                      tol: real, detect: seq<Row> -> seq<Detection>): Step {
    if since + n >= interval && MinInt(|rows|, size) >= interval then
      var eval, base := evalCount + 1, |rows| - MinInt(|rows|, size);
      var now := Evaluated(ts, rows, size, detect, eval, tol);
      Step(Tracks(Kept(now.list, eval, base), now.born), eval, 0, Finished(now.list, eval, base))
    else Step(ts, evalCount, since + n, [])
  }

  // ---------- tracks lie within the rows fed ----------

  lemma {:induction false} AbsorbAllWithin(ts: Tracks, bs: seq<Burst>, eval: nat, tol: real, n: nat)
    requires Within(ts.list, n)
    requires forall j :: 0 <= j < |bs| ==> 0 <= bs[j].absStart && 0 <= bs[j].absEnd <= n
    ensures Within(AbsorbAll(ts, bs, eval, tol).list, n)
    decreases |bs|
  {
    hide FirstMatch;
    if bs == [] {
    } else {
      AbsorbAllWithin(ts, bs[..|bs| - 1], eval, tol, n);
    }
  }

  lemma {:induction false} KeptWithin(ts: seq<TrackState>, eval: nat, base: int, n: nat)
    requires Within(ts, n)
    ensures Within(Kept(ts, eval, base), n)
  {
    if ts == [] {
    } else {
      KeptWithin(ts[..|ts| - 1], eval, base, n);
    }
  }

  // ---------- tracks that were growing ----------

  ghost predicate SeenBy(ts: seq<TrackState>, eval: nat) {
    forall i :: 0 <= i < |ts| ==> ts[i].lastEval <= eval
  }

  /** At evaluation `eval` of a window that ended at row `n`, a burst was growing only at the
      window's edge. */
  ghost predicate AtEdge(ts: seq<TrackState>, eval: nat, n: int) {
    && SeenBy(ts, eval)
    && forall i :: 0 <= i < |ts| && ts[i].growing && ts[i].lastEval == eval ==> n - MARGIN_ROWS <= ts[i].absEnd
  }

  /** No track was seen by an evaluation that has only begun. */
  lemma {:induction false} NotYetSeen(ts: seq<TrackState>, eval: nat, n: int)
    requires 0 < eval && SeenBy(ts, eval - 1)
    ensures AtEdge(ts, eval, n)
  {
  }

  lemma {:induction false} AbsorbAllAtEdge(ts: Tracks, bs: seq<Burst>, eval: nat, tol: real, n: int)
    requires AtEdge(ts.list, eval, n)
    requires forall j :: 0 <= j < |bs| && bs[j].growing ==> n - MARGIN_ROWS <= bs[j].absEnd
    ensures AtEdge(AbsorbAll(ts, bs, eval, tol).list, eval, n)
    decreases |bs|
  {
    hide FirstMatch;
    if bs == [] {
    } else {
      AbsorbAllAtEdge(ts, bs[..|bs| - 1], eval, tol, n);
    }
  }

  lemma {:induction false} KeptAtEdge(ts: seq<TrackState>, eval: nat, base: int, n: int)
    requires AtEdge(ts, eval, n)
    ensures AtEdge(Kept(ts, eval, base), eval, n)
  {
    if ts == [] {
    } else {
      KeptAtEdge(ts[..|ts| - 1], eval, base, n);
    }
  }

  /** Absorbing keeps each track's place and number, and never shortens it. */
  lemma {:induction false} AbsorbAllExtends(ts: Tracks, bs: seq<Burst>, eval: nat, tol: real, i: nat)
    requires i < |ts.list|
    ensures var r := AbsorbAll(ts, bs, eval, tol);
      i < |r.list| && r.list[i].id == ts.list[i].id && ts.list[i].absEnd <= r.list[i].absEnd
    decreases |bs|
  {
    hide FirstMatch;
    if bs == [] {
    } else {
      AbsorbAllExtends(ts, bs[..|bs| - 1], eval, tol, i);
    }
  }

  /** An evaluation of `n` rows from row `base` on keeps tracks within the rows fed, and growing
      ones at the edge. */
  lemma {:induction false} EvaluationKeeps(was: Tracks, found: seq<Detection>, base: nat, n: nat, eval: nat, tol: real)
    requires forall j :: 0 <= j < |found| ==> Sound(found[j], n)
    requires Within(was.list, base + n) && 0 < eval && SeenBy(was.list, eval - 1)
    ensures var ts := AbsorbAll(was, AllAbsolute(found, base, n), eval, tol);
      && Within(ts.list, base + n) && Within(Kept(ts.list, eval, base), base + n)
      && AtEdge(Kept(ts.list, eval, base), eval, base + n)
  {
    hide AbsorbAll, Kept, AtEdge, SeenBy;
    var placed := AllAbsolute(found, base, n);
    AbsorbAllWithin(was, placed, eval, tol, base + n);
    NotYetSeen(was.list, eval, base + n);
    AbsorbAllAtEdge(was, placed, eval, tol, base + n);
    var ts := AbsorbAll(was, placed, eval, tol);
    KeptWithin(ts.list, eval, base, base + n);
    KeptAtEdge(ts.list, eval, base, base + n);
  }

  class RollingBurstDetector<Row(!new, 0)> {
    const rows: RollingWindow<Row>
    const tracker: Tracker
    const evalInterval: nat
    var rowsSinceEval: nat

    ghost predicate Valid()
      reads this, rows, rows.window, rows.rowPos, tracker, tracker.tracked
    {
      && rows.Valid() && tracker.Valid() && Within(tracker.tracks.list, rows.totalRows)
      && rowsSinceEval <= rows.totalRows && Paced()
      && AtEdge(tracker.tracks.list, tracker.evalCount, rows.totalRows - rowsSinceEval)
    }

    /** Fewer rows than the interval have come since the last evaluation, unless the window is
        too short for any. */
    ghost predicate Paced()
      reads this
    {
      evalInterval <= rows.size ==> rowsSinceEval < evalInterval || rowsSinceEval == 0
    }

    /** About to evaluate the window. */
    ghost predicate Ready()
      reads this, rows, rows.window, rows.rowPos, tracker, tracker.tracked
    {
      && rows.Valid() && tracker.Valid() && Within(tracker.tracks.list, rows.totalRows)
      && rowsSinceEval == 0 && SeenBy(tracker.tracks.list, tracker.evalCount)
    }

    constructor (windowRows: nat, evalInterval: nat, tol: real)
      requires 0 < windowRows && 0.0 < tol
      ensures Valid() && rows.rows == [] && rows.pos == [] && tracker.tracks == Tracks([], 0) && tracker.out == []
      ensures rows.size == windowRows && tracker.tol == tol && this.evalInterval == evalInterval
      ensures rowsSinceEval == 0 && tracker.evalCount == 0 && tracker.tracked == []
      ensures fresh(rows) && fresh(rows.window) && fresh(rows.rowPos) && fresh(tracker)
    {
      this.evalInterval := evalInterval;
      rows := new RollingWindow(windowRows);
      tracker := new Tracker(tol);
      rowsSinceEval := 0;
    }

    /** Appends a grid; evaluates when enough rows have come since the last time. */
    method Feed(grid: seq<Row>, chunkStart: Option<nat>, sliceSamples: Option<nat>,
                detect: seq<Row> -> seq<Detection>)
      returns (finished: seq<Fingerprint>)
      requires Valid() && AllSound(detect)
      requires rows.writePos + |grid| <= 2 * rows.size
      modifies this, rows, rows.window, rows.rowPos, tracker, tracker.tracked
      ensures Valid()
      ensures rows.rows == old(rows.rows) + grid
      ensures rows.pos == old(rows.pos) + PositionsOf(|grid|, chunkStart, sliceSamples)
      ensures rows.slice == if chunkStart.Some? && sliceSamples.Some? && sliceSamples.value != 0
                            then sliceSamples else old(rows.slice)
      ensures var r := After(old(tracker.tracks), old(tracker.evalCount), old(rowsSinceEval), rows.rows, |grid|,
                             rows.size, evalInterval, tracker.tol, detect);
        && tracker.tracks == r.tracks && tracker.evalCount == r.evalCount && rowsSinceEval == r.since
        && Within(r.done, |rows.pos|)
        && finished == FingerprintsOf(r.done, rows.pos, rows.slice, 2 * rows.size)
        && tracker.out == old(tracker.out) + Ids(r.done)
      ensures var due := old(rowsSinceEval) + |grid| >= evalInterval && MinInt(|rows.rows|, rows.size) >= evalInterval;
        && tracker.evalCount == old(tracker.evalCount) + (if due then 1 else 0)
        && rowsSinceEval == (if due then 0 else old(rowsSinceEval) + |grid|)
        && (!due ==> finished == [] && tracker.stories == old(tracker.stories))
        && var base := |rows.rows| - MinInt(|rows.rows|, rows.size);
           (due ==> AllSighted(old(tracker.stories), tracker.stories, detect(rows.rows[base..]), base, |rows.rows|,
                               tracker.evalCount))
      ensures |old(tracker.out)| <= |tracker.out|
      ensures AllReport(finished, tracker.out[|old(tracker.out)|..], tracker.stories, rows.pos, rows.slice, 2 * rows.size)
      ensures forall t :: t in tracker.tracked ==> t in old(tracker.tracked) || fresh(t)
    {
      hide Evaluated, Kept, Finished, FingerprintsOf, Ids, PositionsOf, Tracker.Valid, RollingWindow.HoldsRows,
           RollingWindow.HoldsPositions, AllSound, SeenBy, AllSighted;
      WithinMore(rows.totalRows, rows.totalRows + |grid|);
      rows.Feed(grid, chunkStart, sliceSamples);
      rowsSinceEval := rowsSinceEval + |grid|;
      finished := [];
      if rowsSinceEval >= evalInterval && rows.rowsFilled >= evalInterval {
        rowsSinceEval := 0;
        finished := Evaluate(detect);
      }
    }

    lemma {:induction false} WithinMore(n: nat, n': nat)
      requires n <= n' && Within(tracker.tracks.list, n)
      ensures Within(tracker.tracks.list, n')
    {
    }

    /** Detects the bursts of the window, matches them to tracks, and emits what is done. */
    method Evaluate(detect: seq<Row> -> seq<Detection>) returns (finished: seq<Fingerprint>)
      requires Ready() && AllSound(detect)
      modifies tracker, tracker.tracked
      ensures Valid()
      ensures var eval := old(tracker.evalCount) + 1;
        var base := |rows.rows| - MinInt(|rows.rows|, rows.size);
        var ts := Evaluated(old(tracker.tracks), rows.rows, rows.size, detect, eval, tracker.tol);
        && tracker.evalCount == eval
        && tracker.tracks == Tracks(Kept(ts.list, eval, base), ts.born)
        && Within(Finished(ts.list, eval, base), |rows.pos|)
        && finished == FingerprintsOf(Finished(ts.list, eval, base), rows.pos, rows.slice, 2 * rows.size)
        && tracker.out == old(tracker.out) + Ids(Finished(ts.list, eval, base))
      ensures AllReport(finished, tracker.out[|old(tracker.out)|..], tracker.stories, rows.pos, rows.slice, 2 * rows.size)
      ensures var base := |rows.rows| - MinInt(|rows.rows|, rows.size);
        AllSighted(old(tracker.stories), tracker.stories, detect(rows.rows[base..]), base, |rows.rows|, tracker.evalCount)
      ensures forall t :: t in tracker.tracked ==> t in old(tracker.tracked) || fresh(t)
    {
      hide AllSighted, AllReport, AbsorbScan, AbsorbAll, Kept, Finished, FingerprintsOf, Tracker.Valid,
           RollingWindow.HoldsRows, RollingWindow.HoldsPositions, Within, AtEdge, AllSound, SeenBy;
      var grid := rows.Grid();
      var found := detect(grid);
      var n := |grid|;
      var base := rows.totalRows - n;
      tracker.NextEvaluation();
      ghost var eval, was := tracker.evalCount, tracker.tracks;
      ghost var placed := AllAbsolute(found, base, n);
      SoundFound(detect, grid);
      AbsorbFound(found, base, n);
      EvaluationKeeps(was, found, base, n, eval, tracker.tol);
      finished := tracker.CollectFinished(base, rows);
    }

    lemma {:induction false} SoundFound(detect: seq<Row> -> seq<Detection>, grid: seq<Row>)
      requires AllSound(detect)
      ensures forall j :: 0 <= j < |detect(grid)| ==> Sound(detect(grid)[j], |grid|)
    {
    }

    method AbsorbFound(found: seq<Detection>, base: nat, n: nat)
      requires tracker.Valid() && forall j :: 0 <= j < |found| ==> Sound(found[j], n)
      modifies tracker`tracked, tracker`index, tracker`order, tracker`nextOrder, tracker`tracks, tracker`stories,
               tracker.tracked
      ensures tracker.Valid()
      ensures tracker.tracks == AbsorbAll(old(tracker.tracks), AllAbsolute(found, base, n), tracker.evalCount, tracker.tol)
      ensures AllSighted(old(tracker.stories), tracker.stories, found, base, base + n, tracker.evalCount)
      ensures forall i :: 0 <= i < |tracker.tracked| ==> tracker.tracked[i] in old(tracker.tracked) || fresh(tracker.tracked[i])
    {
      hide AbsorbScan, Tracker.Valid, Sights, Seen, Gains, Absolute;
      ghost var placed, was := AllAbsolute(found, base, n), tracker.stories;
      for j := 0 to |found|
        invariant tracker.Valid()
        invariant tracker.tracks == AbsorbAll(old(tracker.tracks), placed[..j], tracker.evalCount, tracker.tol)
        invariant AllSighted(was, tracker.stories, found[..j], base, base + n, tracker.evalCount)
        invariant forall i :: 0 <= i < |tracker.tracked| ==> tracker.tracked[i] in old(tracker.tracked) || fresh(tracker.tracked[i])
      {
        ghost var now := tracker.stories;
        AbsoluteSound(found[j], base, n);
        tracker.Absorb(Absolute(found[j], base, n));
        OneMoreSighted(was, now, tracker.stories, found, j, base, n, tracker.evalCount);
        assert placed[..j + 1][..j] == placed[..j];
      }
      assert placed[..|found|] == placed && found[..|found|] == found;
    }

    lemma {:induction false} AbsoluteSound(d: Detection, base: nat, n: nat)
      requires Sound(d, n)
      ensures 0.0 <= Absolute(d, base, n).bandwidth
    {
    }
  }
}
