/**
 Tracking bursts across evaluations (`processing/rolling_burst.py`).

 Every evaluation detects again the bursts of the rolling window. A detection is matched
 to a track by frequency and time, or starts a new track; a track is emitted once. The
 matching looks only at the tracks that a frequency-bucket index returns. `Tracker.Absorb`
 is proved against the plain scan over all tracks in insertion order.
 */
module BurstTracker {
  import opened Arith
  import opened RowWindow
  import opened Wrappers

  /** A detected burst on absolute rows. */
  datatype Burst = Burst(absStart: int, absEnd: int, center: real, bandwidth: real,
                         peakPower: real, peakFreq: real, growing: bool)
  {
    function Lo(): real {
      center - bandwidth / 2.0
    }

    function Hi(): real {
      center + bandwidth / 2.0
    }
  }

  /** What a track knows; `id` is its number in the order of creation. */
  datatype TrackState = TrackState(id: nat, absStart: int, absEnd: int, fLo: real, fHi: real, center: real,
                                   peakPower: real, peakFreq: real, lastEval: nat, growing: bool, emitted: bool)
  {
    /** The frequency and the time test of the source. */
    predicate Matches(b: Burst, tol: real) {
      && Abs(b.center - center) <= tol + (b.Hi() - b.Lo() + fHi - fLo) / 2.0
      && b.absStart <= absEnd + 3 && b.absEnd >= absStart - 3
    }

    predicate Valid() {
      fLo <= fHi && center == (fLo + fHi) / 2.0
    }

    predicate ScrolledOut(base: int) {
      absEnd < base
    }

    /** Due to be emitted by evaluation `eval` of a window that starts at row `base`. */
    predicate Done(eval: nat, base: int) {
      !emitted && ((lastEval == eval && !growing) || ScrolledOut(base))
    }
  }

  function Abs(x: real): real {
    if x < 0.0 then -x else x
  }

  // ---------- the plain scan, on values ----------

  /** The first track that matches, or the number of tracks. */
  function FirstMatch(ts: seq<TrackState>, b: Burst, tol: real): (i: nat)
    ensures i <= |ts|
    ensures i < |ts| ==> ts[i].Matches(b, tol)
    ensures forall j :: 0 <= j < i ==> !ts[j].Matches(b, tol)
  {
    if ts == [] then 0
    else if ts[0].Matches(b, tol) then 0
    else 1 + FirstMatch(ts[1..], b, tol)
  }

  /** The track after a detection was matched to it. */
  function Merged(t: TrackState, b: Burst, eval: nat): TrackState {
    var lo, hi := MinReal(t.fLo, b.Lo()), MaxReal(t.fHi, b.Hi());
    t.(absStart := MinInt(t.absStart, b.absStart), absEnd := MaxInt(t.absEnd, b.absEnd),
       fLo := lo, fHi := hi, center := (lo + hi) / 2.0,
       peakFreq := if b.peakPower > t.peakPower then b.peakFreq else t.peakFreq,
       peakPower := MaxReal(t.peakPower, b.peakPower),
       lastEval := eval, growing := b.growing)
  }

  function NewTrack(b: Burst, id: nat, eval: nat): TrackState {
    TrackState(id, b.absStart, b.absEnd, b.Lo(), b.Hi(), b.center, b.peakPower, b.peakFreq, eval, b.growing, false)
  }

  /** The tracks, in insertion order, and how many were ever made. */
  datatype Tracks = Tracks(list: seq<TrackState>, born: nat)

  /** One detection, matched by scanning every track. */
  function AbsorbScan(ts: Tracks, b: Burst, eval: nat, tol: real): Tracks {
    var i := FirstMatch(ts.list, b, tol);
    if i < |ts.list| then Tracks(ts.list[i := Merged(ts.list[i], b, eval)], ts.born)
    else Tracks(ts.list + [NewTrack(b, ts.born, eval)], ts.born + 1)
  }

  function AbsorbAll(ts: Tracks, bs: seq<Burst>, eval: nat, tol: real): Tracks {
    if bs == [] then ts
    else AbsorbScan(AbsorbAll(ts, bs[..|bs| - 1], eval, tol), bs[|bs| - 1], eval, tol)
  }

  /** A finished burst. Times are in rows before the newest one. */
  datatype Fingerprint = Fingerprint(startAgo: int, stopAgo: int, rows: int, center: real, peakFreq: real,
                                     bandwidth: real, peakPower: real, samples: Option<(int, int)>)

  /** The fingerprint of a track, with its samples read off the whole history of positions. */
  ghost function FingerprintOf(t: TrackState, pos: seq<int>, slice: Option<nat>, kept: nat): Fingerprint
    requires 0 <= t.absStart && 0 <= t.absEnd <= |pos|
  {
    Fingerprint(|pos| - t.absStart, |pos| - t.absEnd, t.absEnd - t.absStart, t.center, t.peakFreq,
                MaxReal(t.fHi - t.fLo, 0.0), t.peakPower, SpanOf(pos, slice, kept, t.absStart, t.absEnd))
  }

  ghost predicate Within(ts: seq<TrackState>, n: nat) {
    forall i :: 0 <= i < |ts| ==> 0 <= ts[i].absStart && 0 <= ts[i].absEnd <= n
  }

  ghost function FingerprintsOf(ts: seq<TrackState>, pos: seq<int>, slice: Option<nat>,
                                kept: nat): (r: seq<Fingerprint>)
    requires Within(ts, |pos|)
    ensures |r| == |ts|
    ensures forall i :: 0 <= i < |ts| ==> r[i] == FingerprintOf(ts[i], pos, slice, kept)
  {
    seq(|ts|, i requires 0 <= i < |ts| && 0 <= ts[i].absStart && 0 <= ts[i].absEnd <= |pos| =>
      FingerprintOf(ts[i], pos, slice, kept))
  }

  /** The tracks that an evaluation emits, in order. */
  function Finished(ts: seq<TrackState>, eval: nat, base: int): seq<TrackState> {
    if ts == [] then []
    else
      var t := ts[|ts| - 1];
      Finished(ts[..|ts| - 1], eval, base) + (if t.Done(eval, base) then [t] else [])
  }

  function Marked(t: TrackState, eval: nat, base: int): TrackState {
    t.(emitted := t.emitted || t.Done(eval, base))
  }

  /** The tracks an evaluation keeps: those not scrolled out, marked when emitted. */
  function Kept(ts: seq<TrackState>, eval: nat, base: int): seq<TrackState> {
    if ts == [] then []
    else
      var t := ts[|ts| - 1];
      Kept(ts[..|ts| - 1], eval, base) + (if t.ScrolledOut(base) then [] else [Marked(t, eval, base)])
  }

  function Ids(ts: seq<TrackState>): (r: seq<nat>)
    ensures |r| == |ts| && forall i :: 0 <= i < |ts| ==> r[i] == ts[i].id
  {
    seq(|ts|, i requires 0 <= i < |ts| => ts[i].id)
  }

  lemma {:induction false} PickedSnoc(ts: seq<TrackState>, i: nat, eval: nat, base: int)
    requires i < |ts|
    ensures Finished(ts[..i + 1], eval, base) ==
      Finished(ts[..i], eval, base) + (if ts[i].Done(eval, base) then [ts[i]] else [])
    ensures Kept(ts[..i + 1], eval, base) ==
      Kept(ts[..i], eval, base) + (if ts[i].ScrolledOut(base) then [] else [Marked(ts[i], eval, base)])
  {
    assert ts[..i + 1][..i] == ts[..i];
  }

  // ---------- what a track holds ----------

  /** A burst continues a track: its frequencies overlap the track's, widened by `tol` on both
      sides, and at most three rows lie between the two. */
  ghost predicate Continues(b: Burst, t: TrackState, tol: real) {
    && t.fLo - tol <= b.center + b.bandwidth / 2.0 && b.center - b.bandwidth / 2.0 <= t.fHi + tol
    && b.absStart - t.absEnd <= 3 && t.absStart - b.absEnd <= 3
  }

  lemma {:induction false} MatchesIff(t: TrackState, b: Burst, tol: real)
    requires t.Valid()
    ensures t.Matches(b, tol) <==> Continues(b, t, tol)
  {
    ClosenessIsOverlap(t, b, tol);
  }

  /** What a scan does to the first track that the burst continues: its rows and frequencies
      become the smallest intervals that hold the track's and the burst's, its peak the larger
      one, and nothing else changes. */
  lemma {:induction false} AbsorbMeans(ts: Tracks, b: Burst, eval: nat, tol: real, i: nat)
    requires i < |ts.list| && Continues(b, ts.list[i], tol)
    requires forall j :: 0 <= j < |ts.list| ==> ts.list[j].Valid()
    requires forall j :: 0 <= j < i ==> !Continues(b, ts.list[j], tol)
    ensures var r := AbsorbScan(ts, b, eval, tol);
      && r.born == ts.born && |r.list| == |ts.list|
      && (forall j :: 0 <= j < |ts.list| && j != i ==> r.list[j] == ts.list[j])
      && var t, t' := ts.list[i], r.list[i];
      && t'.absStart <= t.absStart && t'.absStart <= b.absStart && t'.absStart in {t.absStart, b.absStart}
      && t.absEnd <= t'.absEnd && b.absEnd <= t'.absEnd && t'.absEnd in {t.absEnd, b.absEnd}
      && t'.fLo <= t.fLo && t'.fLo <= b.center - b.bandwidth / 2.0
      && t'.fLo in {t.fLo, b.center - b.bandwidth / 2.0}
      && t.fHi <= t'.fHi && b.center + b.bandwidth / 2.0 <= t'.fHi
      && t'.fHi in {t.fHi, b.center + b.bandwidth / 2.0}
      && t'.fHi - t'.center == t'.center - t'.fLo
      && (b.peakPower <= t.peakPower ==> t'.peakPower == t.peakPower && t'.peakFreq == t.peakFreq)
      && (t.peakPower < b.peakPower ==> t'.peakPower == b.peakPower && t'.peakFreq == b.peakFreq)
      && t'.lastEval == eval && t'.growing == b.growing && t'.id == t.id && t'.emitted == t.emitted
  {
    hide FirstMatch;
    forall j | 0 <= j <= i
      ensures ts.list[j].Matches(b, tol) <==> Continues(b, ts.list[j], tol)
    {
      MatchesIff(ts.list[j], b, tol);
    }
    assert FirstMatch(ts.list, b, tol) == i;
  }

  /** A burst that continues no track becomes the last one, not emitted yet. */
  lemma {:induction false} AbsorbAdds(ts: Tracks, b: Burst, eval: nat, tol: real)
    requires forall j :: 0 <= j < |ts.list| ==> ts.list[j].Valid() && !Continues(b, ts.list[j], tol)
    ensures var r := AbsorbScan(ts, b, eval, tol);
      && |r.list| == |ts.list| + 1 && r.list[..|ts.list|] == ts.list && r.born == ts.born + 1
      && var t := r.list[|ts.list|];
      && t.absStart == b.absStart && t.absEnd == b.absEnd
      && t.fHi - t.fLo == b.bandwidth && t.fHi - t.center == t.center - t.fLo && t.center == b.center
      && t.peakPower == b.peakPower && t.peakFreq == b.peakFreq
      && t.lastEval == eval && t.growing == b.growing && t.id == ts.born && !t.emitted
  {
    hide FirstMatch;
    forall j | 0 <= j < |ts.list|
      ensures !ts.list[j].Matches(b, tol)
    {
      MatchesIff(ts.list[j], b, tol);
    }
    assert FirstMatch(ts.list, b, tol) == |ts.list|;
  }

  /** A detection matched to a track, by evaluation `eval`. */
  datatype Sighting = Sighting(burst: Burst, eval: nat)

  /** A track shows its detections `s`: it spans exactly their rows and frequencies, its peak
      is the first of their strongest, and the newest tells whether it still grows. */
  ghost predicate Shows(t: TrackState, s: seq<Sighting>) {
    && s != []
    && (forall k :: 0 <= k < |s| ==> t.absStart <= s[k].burst.absStart && s[k].burst.absEnd <= t.absEnd)
    && (exists k :: 0 <= k < |s| && s[k].burst.absStart == t.absStart)
    && (exists k :: 0 <= k < |s| && s[k].burst.absEnd == t.absEnd)
    && (forall k :: 0 <= k < |s| ==>
          t.fLo <= s[k].burst.center - s[k].burst.bandwidth / 2.0 && s[k].burst.center + s[k].burst.bandwidth / 2.0 <= t.fHi)
    && (exists k :: 0 <= k < |s| && s[k].burst.center - s[k].burst.bandwidth / 2.0 == t.fLo)
    && (exists k :: 0 <= k < |s| && s[k].burst.center + s[k].burst.bandwidth / 2.0 == t.fHi)
    && t.center == (t.fLo + t.fHi) / 2.0
    && (forall k :: 0 <= k < |s| ==> s[k].burst.peakPower <= t.peakPower)
    && (exists k :: 0 <= k < |s| && s[k].burst.peakPower == t.peakPower && s[k].burst.peakFreq == t.peakFreq
                    && forall j :: 0 <= j < k ==> s[j].burst.peakPower < t.peakPower)
    && t.lastEval == s[|s| - 1].eval && t.growing == s[|s| - 1].burst.growing
  }

  /** The detections behind every track ever made, by its number. */
  ghost predicate AllShow(ts: Tracks, stories: seq<seq<Sighting>>) {
    && |stories| == ts.born
    && forall i :: 0 <= i < |ts.list| ==> ts.list[i].id < ts.born && Shows(ts.list[i], stories[ts.list[i].id])
  }

  /** Some track was made or extended by `d`. */
  ghost predicate Seen(stories: seq<seq<Sighting>>, d: Sighting) {
    exists n :: 0 <= n < |stories| && d in stories[n]
  }

  /** `d` is appended to the detections of track `n`, or is the first of a new track. */
  ghost function With(was: seq<seq<Sighting>>, n: nat, d: Sighting): seq<seq<Sighting>>
    requires n <= |was|
  {
    if n < |was| then was[n := was[n] + [d]] else was + [[d]]
  }

  ghost predicate Gains(was: seq<seq<Sighting>>, now: seq<seq<Sighting>>, d: Sighting) {
    exists n :: 0 <= n <= |was| && now == With(was, n, d)
  }

  lemma {:induction false} GainsSeen(was: seq<seq<Sighting>>, now: seq<seq<Sighting>>, d: Sighting)
    requires Gains(was, now, d)
    ensures forall e :: Seen(now, e) <==> Seen(was, e) || e == d
  {
    var n :| 0 <= n <= |was| && now == With(was, n, d);
    assert d in now[n];
    forall e | Seen(was, e)
      ensures Seen(now, e)
    {
      var m :| 0 <= m < |was| && e in was[m];
      assert e in now[m];
    }
    forall e | Seen(now, e) && e != d
      ensures Seen(was, e)
    {
      var m :| 0 <= m < |now| && e in now[m];
      assert m < |was| && e in was[m];
    }
  }

  /** A detection goes to the first track that it continues; one that continues none starts a
      new track. No other track's detections change. */
  ghost predicate Told(ts: Tracks, was: seq<seq<Sighting>>, now: seq<seq<Sighting>>, d: Sighting, tol: real)
    requires |was| == ts.born && forall i :: 0 <= i < |ts.list| ==> ts.list[i].id < ts.born
  {
    && Gains(was, now, d)
    && (forall i :: 0 <= i < |ts.list| && Continues(d.burst, ts.list[i], tol)
                    && (forall j :: 0 <= j < i ==> !Continues(d.burst, ts.list[j], tol)) ==>
          now == was[ts.list[i].id := was[ts.list[i].id] + [d]])
    && ((forall i :: 0 <= i < |ts.list| ==> !Continues(d.burst, ts.list[i], tol)) ==> now == was + [[d]])
  }

  lemma {:induction false} ShowsOneMore(t: TrackState, s: seq<Sighting>, b: Burst, eval: nat)
    requires Shows(t, s)
    ensures Shows(Merged(t, b, eval), s + [Sighting(b, eval)])
  {
    var s', n := s + [Sighting(b, eval)], |s|;
    assert s'[n] == Sighting(b, eval) && forall k :: 0 <= k < n ==> s'[k] == s[k];
    SpanGrows(t, s, b, eval);
    PeakGrows(t, s, b, eval);
  }

  lemma {:induction false} SpanGrows(t: TrackState, s: seq<Sighting>, b: Burst, eval: nat)
    requires Shows(t, s)
    ensures var t', s' := Merged(t, b, eval), s + [Sighting(b, eval)];
      && (exists k :: 0 <= k < |s'| && s'[k].burst.absStart == t'.absStart)
      && (exists k :: 0 <= k < |s'| && s'[k].burst.absEnd == t'.absEnd)
      && (exists k :: 0 <= k < |s'| && s'[k].burst.center - s'[k].burst.bandwidth / 2.0 == t'.fLo)
      && (exists k :: 0 <= k < |s'| && s'[k].burst.center + s'[k].burst.bandwidth / 2.0 == t'.fHi)
  {
    var s' := s + [Sighting(b, eval)];
    var first :| 0 <= first < |s| && s[first].burst.absStart == t.absStart;
    var last :| 0 <= last < |s| && s[last].burst.absEnd == t.absEnd;
    var low :| 0 <= low < |s| && s[low].burst.center - s[low].burst.bandwidth / 2.0 == t.fLo;
    var high :| 0 <= high < |s| && s[high].burst.center + s[high].burst.bandwidth / 2.0 == t.fHi;
    assert s'[first] == s[first] && s'[last] == s[last] && s'[low] == s[low] && s'[high] == s[high];
    assert s'[|s|].burst == b;
  }

  lemma {:induction false} PeakGrows(t: TrackState, s: seq<Sighting>, b: Burst, eval: nat)
    requires Shows(t, s)
    ensures var t', s' := Merged(t, b, eval), s + [Sighting(b, eval)];
      exists k :: 0 <= k < |s'| && s'[k].burst.peakPower == t'.peakPower && s'[k].burst.peakFreq == t'.peakFreq
                  && forall j :: 0 <= j < k ==> s'[j].burst.peakPower < t'.peakPower
  {
    var s' := s + [Sighting(b, eval)];
    assert forall k :: 0 <= k < |s| ==> s'[k] == s[k];
    assert s'[|s|].burst == b;
    var peak :| 0 <= peak < |s| && s[peak].burst.peakPower == t.peakPower && s[peak].burst.peakFreq == t.peakFreq
                && forall j :: 0 <= j < peak ==> s[j].burst.peakPower < t.peakPower;
    var k := if b.peakPower > t.peakPower then |s| else peak;
    assert 0 <= k < |s'|;
  }

  lemma {:induction false} ShowsFirst(b: Burst, id: nat, eval: nat)
    requires 0.0 <= b.bandwidth
    ensures Shows(NewTrack(b, id, eval), [Sighting(b, eval)])
  {
    var s := [Sighting(b, eval)];
    assert s[0].burst == b;
  }

  /** The detections behind the tracks, with one more. */
  ghost function MoreStories(ts: Tracks, stories: seq<seq<Sighting>>, b: Burst, eval: nat,
                             tol: real): (r: seq<seq<Sighting>>)
    requires AllShow(ts, stories)
    ensures |r| == AbsorbScan(ts, b, eval, tol).born && Gains(stories, r, Sighting(b, eval))
  {
    var i := FirstMatch(ts.list, b, tol);
    With(stories, if i < |ts.list| then ts.list[i].id else |stories|, Sighting(b, eval))
  }

  /** After a scan every track still shows its detections, one of which is the new one. */
  lemma {:induction false} AbsorbShows(ts: Tracks, stories: seq<seq<Sighting>>, b: Burst, eval: nat, tol: real,
                                       out: seq<nat>)
    requires AllShow(ts, stories) && Ledger(ts, out) && 0.0 <= b.bandwidth
    requires forall i :: 0 <= i < |ts.list| ==> ts.list[i].Valid()
    ensures AllShow(AbsorbScan(ts, b, eval, tol), MoreStories(ts, stories, b, eval, tol))
    ensures Told(ts, stories, MoreStories(ts, stories, b, eval, tol), Sighting(b, eval), tol)
  {
    hide Shows, FirstMatch, Merged, NewTrack, Continues, Gains;
    var i := FirstMatch(ts.list, b, tol);
    forall j | 0 <= j < |ts.list|
      ensures ts.list[j].Matches(b, tol) <==> Continues(b, ts.list[j], tol)
    {
      MatchesIff(ts.list[j], b, tol);
    }
    assert Rising(ts.list);
    if i < |ts.list| {
      ShowsOneMore(ts.list[i], stories[ts.list[i].id], b, eval);
      IdStays(ts.list[i], b, eval);
    } else {
      ShowsFirst(b, ts.born, eval);
      IdIsNew(b, ts.born, eval);
    }
  }

  lemma {:induction false} IdStays(t: TrackState, b: Burst, eval: nat)
    ensures Merged(t, b, eval).id == t.id && Merged(t, b, eval).emitted == t.emitted
  {
  }

  lemma {:induction false} IdIsNew(b: Burst, id: nat, eval: nat)
    ensures NewTrack(b, id, eval).id == id && !NewTrack(b, id, eval).emitted
  {
  }

  /** What is kept shows its detections. */
  lemma {:induction false} KeptShow(ts: Tracks, stories: seq<seq<Sighting>>, eval: nat, base: int)
    requires AllShow(ts, stories)
    ensures AllShow(Tracks(Kept(ts.list, eval, base), ts.born), stories)
  {
    hide Shows, Kept, Marked;
    var k := Kept(ts.list, eval, base);
    KeptAre(ts.list, eval, base);
    forall i | 0 <= i < |k|
      ensures k[i].id < ts.born && Shows(k[i], stories[k[i].id])
    {
      assert k[i] in k;
      var j :| 0 <= j < |ts.list| && k[i] == Marked(ts.list[j], eval, base);
      MarkedShows(ts.list[j], stories[ts.list[j].id], eval, base);
    }
  }

  lemma {:induction false} MarkedShows(t: TrackState, s: seq<Sighting>, eval: nat, base: int)
    requires Shows(t, s)
    ensures Shows(Marked(t, eval, base), s) && Marked(t, eval, base).id == t.id
  {
    hide Shows;
    OnlyShown(t, s, Marked(t, eval, base));
  }

  /** A fingerprint reports the detections `s`: read as a track it shows them, and its samples
      are the recorded ones from its first row to the end of its last, whenever both are kept. */
  ghost predicate Reports(f: Fingerprint, s: seq<Sighting>, pos: seq<int>, slice: Option<nat>, kept: nat) {
    var a, e := |pos| - f.startAgo, |pos| - f.stopAgo;
    && s != [] && 0 <= a && 0 <= e <= |pos| && f.rows == e - a
    && Shows(TrackState(0, a, e, f.center - f.bandwidth / 2.0, f.center + f.bandwidth / 2.0, f.center,
                        f.peakPower, f.peakFreq, s[|s| - 1].eval, s[|s| - 1].burst.growing, true), s)
    && (f.samples.Some? <==> slice.Some? && f.startAgo <= kept && 0 < f.rows && 0 <= pos[a] <= pos[e - 1])
    && (f.samples.Some? ==> f.samples.value.0 == pos[a] && f.samples.value.1 - slice.value == pos[e - 1])
  }

  lemma {:induction false} FingerprintReports(t: TrackState, s: seq<Sighting>, pos: seq<int>, slice: Option<nat>, kept: nat)
    requires t.Valid() && Shows(t, s) && 0 <= t.absStart && 0 <= t.absEnd <= |pos|
    ensures Reports(FingerprintOf(t, pos, slice, kept), s, pos, slice, kept)
  {
    var f := FingerprintOf(t, pos, slice, kept);
    assert f.center - f.bandwidth / 2.0 == t.fLo && f.center + f.bandwidth / 2.0 == t.fHi;
    OnlyShown(t, s, t.(id := 0, emitted := true));
  }

  /** The number of a track and whether it was emitted are not among what it shows. */
  lemma {:induction false} OnlyShown(t: TrackState, s: seq<Sighting>, u: TrackState)
    requires Shows(t, s) && u == t.(id := u.id, emitted := u.emitted)
    ensures Shows(u, s)
  {
    var first :| 0 <= first < |s| && s[first].burst.absStart == t.absStart;
    var last :| 0 <= last < |s| && s[last].burst.absEnd == t.absEnd;
    var low :| 0 <= low < |s| && s[low].burst.center - s[low].burst.bandwidth / 2.0 == t.fLo;
    var high :| 0 <= high < |s| && s[high].burst.center + s[high].burst.bandwidth / 2.0 == t.fHi;
  }

  lemma {:induction false} FinishedWithin(ts: seq<TrackState>, eval: nat, base: int, n: nat)
    requires Within(ts, n)
    ensures Within(Finished(ts, eval, base), n)
  {
    FinishedAre(ts, eval, base);
    forall i | 0 <= i < |Finished(ts, eval, base)|
      ensures Finished(ts, eval, base)[i] in ts
    {
      assert Finished(ts, eval, base)[i] in Finished(ts, eval, base);
    }
  }

  /** Each fingerprint of `fs` reports the detections of its track, numbered in `ids`. */
  ghost predicate AllReport(fs: seq<Fingerprint>, ids: seq<nat>, stories: seq<seq<Sighting>>, pos: seq<int>,
                            slice: Option<nat>, kept: nat) {
    && |ids| == |fs|
    && forall i :: 0 <= i < |fs| ==> ids[i] < |stories| && Reports(fs[i], stories[ids[i]], pos, slice, kept)
  }

  lemma {:induction false} FinishedReport(ts: Tracks, stories: seq<seq<Sighting>>, eval: nat, base: int, pos: seq<int>,
                                          slice: Option<nat>, kept: nat)
    requires AllShow(ts, stories) && forall i :: 0 <= i < |ts.list| ==> ts.list[i].Valid()
    requires Within(Finished(ts.list, eval, base), |pos|)
    ensures var f := Finished(ts.list, eval, base);
      AllReport(FingerprintsOf(f, pos, slice, kept), Ids(f), stories, pos, slice, kept)
  {
    hide Shows, Finished, FingerprintOf, Reports;
    var f := Finished(ts.list, eval, base);
    FinishedAre(ts.list, eval, base);
    forall i | 0 <= i < |f|
      ensures f[i].id < |stories|
      ensures Reports(FingerprintsOf(f, pos, slice, kept)[i], stories[f[i].id], pos, slice, kept)
    {
      assert f[i] in f;
      var j :| 0 <= j < |ts.list| && ts.list[j] == f[i];
      FingerprintReports(f[i], stories[f[i].id], pos, slice, kept);
    }
  }

  // ---------- each track is emitted exactly once ----------

  /**
   The ledger of a run. `out` lists the tracks emitted so far: none twice, and exactly
   the marked ones among the tracks kept. A track no longer kept was emitted.
   */
  ghost predicate Ledger(ts: Tracks, out: seq<nat>) {
    && (forall i, j :: 0 <= i < j < |out| ==> out[i] != out[j])
    && (forall i, j :: 0 <= i < j < |ts.list| ==> ts.list[i].id < ts.list[j].id)
    && (forall i :: 0 <= i < |ts.list| ==> ts.list[i].id < ts.born)
    && (forall i :: 0 <= i < |ts.list| ==> (ts.list[i].emitted <==> ts.list[i].id in out))
    && (forall n :: n in out ==> n < ts.born)
    && (forall n: nat :: n < ts.born ==> n in out || n in Ids(ts.list))
  }

  lemma {:induction false} AbsorbKeepsLedger(ts: Tracks, b: Burst, eval: nat, tol: real, out: seq<nat>)
    requires Ledger(ts, out)
    ensures Ledger(AbsorbScan(ts, b, eval, tol), out)
  {
    var i := FirstMatch(ts.list, b, tol);
    var r := AbsorbScan(ts, b, eval, tol);
    if i < |ts.list| {
      assert Ids(r.list) == Ids(ts.list);
    } else {
      assert Ids(r.list) == Ids(ts.list) + [ts.born];
    }
  }

  lemma {:induction false} AbsorbAllKeepsLedger(ts: Tracks, bs: seq<Burst>, eval: nat, tol: real, out: seq<nat>)
    requires Ledger(ts, out)
    ensures Ledger(AbsorbAll(ts, bs, eval, tol), out)
    decreases |bs|
  {
    if bs == [] {
    } else {
      AbsorbAllKeepsLedger(ts, bs[..|bs| - 1], eval, tol, out);
      AbsorbKeepsLedger(AbsorbAll(ts, bs[..|bs| - 1], eval, tol), bs[|bs| - 1], eval, tol, out);
    }
  }

  /** Emitted are exactly the tracks not emitted before that end before the window, or that
      this evaluation saw and found no longer growing. */
  lemma {:induction false} FinishedAre(ts: seq<TrackState>, eval: nat, base: int)
    ensures forall t :: t in Finished(ts, eval, base) <==>
      t in ts && !t.emitted && (t.absEnd < base || (t.lastEval == eval && !t.growing))
  {
    if ts == [] {
    } else {
      FinishedAre(ts[..|ts| - 1], eval, base);
      assert ts == ts[..|ts| - 1] + [ts[|ts| - 1]];
    }
  }

  lemma {:induction false} KeptAre(ts: seq<TrackState>, eval: nat, base: int)
    ensures |Kept(ts, eval, base)| <= |ts|
    ensures forall t :: t in Kept(ts, eval, base) ==>
      exists i :: 0 <= i < |ts| && !ts[i].ScrolledOut(base) && t == Marked(ts[i], eval, base)
    ensures forall i :: 0 <= i < |ts| && !ts[i].ScrolledOut(base) ==> Marked(ts[i], eval, base) in Kept(ts, eval, base)
  {
    hide Marked;
    if ts == [] {
    } else {
      var n := |ts| - 1;
      KeptAre(ts[..n], eval, base);
      var front, k := Kept(ts[..n], eval, base), Kept(ts, eval, base);
      assert forall i :: 0 <= i < n ==> ts[..n][i] == ts[i];
      assert forall t :: t in front ==> t in k;
      if !ts[n].ScrolledOut(base) {
        assert k[|front|] == Marked(ts[n], eval, base);
      }
    }
  }

  /** Kept are exactly the tracks that end in the window, marked when they are emitted. */
  lemma {:induction false} KeptExactly(ts: seq<TrackState>, eval: nat, base: int)
    ensures forall t :: t in Kept(ts, eval, base) <==>
      exists u :: u in ts && base <= u.absEnd && t == u.(emitted := u.emitted || (u.lastEval == eval && !u.growing))
  {
    hide Kept;
    KeptAre(ts, eval, base);
    forall u | u in ts && base <= u.absEnd
      ensures u.(emitted := u.emitted || (u.lastEval == eval && !u.growing)) in Kept(ts, eval, base)
    {
      var i :| 0 <= i < |ts| && ts[i] == u;
      assert Marked(ts[i], eval, base) in Kept(ts, eval, base);
    }
    forall t | t in Kept(ts, eval, base)
      ensures exists u :: u in ts && base <= u.absEnd
                          && t == u.(emitted := u.emitted || (u.lastEval == eval && !u.growing))
    {
      var i :| 0 <= i < |ts| && !ts[i].ScrolledOut(base) && t == Marked(ts[i], eval, base);
      assert ts[i] in ts;
    }
  }

  ghost predicate Rising(ts: seq<TrackState>) {
    forall i, j :: 0 <= i < j < |ts| ==> ts[i].id < ts[j].id
  }

  lemma {:induction false} PickedBelow(ts: seq<TrackState>, eval: nat, base: int, n: nat)
    requires forall i :: 0 <= i < |ts| ==> ts[i].id < n
    ensures forall i :: 0 <= i < |Finished(ts, eval, base)| ==> Finished(ts, eval, base)[i].id < n
    ensures forall i :: 0 <= i < |Kept(ts, eval, base)| ==> Kept(ts, eval, base)[i].id < n
  {
    if ts == [] {
    } else {
      PickedBelow(ts[..|ts| - 1], eval, base, n);
    }
  }

  lemma {:induction false} PickedStayRising(ts: seq<TrackState>, eval: nat, base: int)
    requires Rising(ts)
    ensures Rising(Finished(ts, eval, base)) && Rising(Kept(ts, eval, base))
  {
    if ts == [] {
    } else {
      var n := |ts| - 1;
      PickedStayRising(ts[..n], eval, base);
      PickedBelow(ts[..n], eval, base, ts[n].id);
    }
  }

  /** Collecting emits no track for a second time and drops none that was not emitted. */
  lemma {:induction false} CollectKeepsLedger(ts: Tracks, eval: nat, base: int, out: seq<nat>)
    requires Ledger(ts, out)
    ensures Ledger(Tracks(Kept(ts.list, eval, base), ts.born), out + Ids(Finished(ts.list, eval, base)))
  {
    var f, k := Finished(ts.list, eval, base), Kept(ts.list, eval, base);
    var out' := out + Ids(f);
    FinishedAre(ts.list, eval, base);
    KeptAre(ts.list, eval, base);
    PickedStayRising(ts.list, eval, base);
    forall i | 0 <= i < |f|
      ensures f[i].id < ts.born && f[i].id !in out
    {
      assert f[i] in f;
    }
    forall i | 0 <= i < |ts.list|
      ensures ts.list[i].id in out' <==> ts.list[i].emitted || ts.list[i].Done(eval, base)
    {
      EmittedNow(ts, eval, base, i);
    }
    forall i | 0 <= i < |k|
      ensures k[i].id < ts.born && (k[i].emitted <==> k[i].id in out')
    {
      assert k[i] in k;
    }
    forall n: nat | n < ts.born && n !in out
      ensures n in Ids(f) || n in Ids(k)
    {
      NotLost(ts, eval, base, out, n);
    }
  }

  /** A track not emitted before is emitted now or kept. */
  lemma {:induction false} NotLost(ts: Tracks, eval: nat, base: int, out: seq<nat>, n: nat)
    requires Ledger(ts, out) && n < ts.born && n !in out
    ensures n in Ids(Finished(ts.list, eval, base)) || n in Ids(Kept(ts.list, eval, base))
  {
    assert n in Ids(ts.list);
    var i :| 0 <= i < |ts.list| && Ids(ts.list)[i] == n;
    if ts.list[i].ScrolledOut(base) {
      EmittedNow(ts, eval, base, i);
    } else {
      var k := Kept(ts.list, eval, base);
      KeptAre(ts.list, eval, base);
      assert Marked(ts.list[i], eval, base) in k;
      var j :| 0 <= j < |k| && k[j] == Marked(ts.list[i], eval, base);
      assert Ids(k)[j] == n;
    }
  }

  lemma {:induction false} FromList(ts: seq<TrackState>, eval: nat, base: int, j: nat) returns (i: nat)
    requires j < |Finished(ts, eval, base)|
    ensures i < |ts| && ts[i] == Finished(ts, eval, base)[j] && ts[i].Done(eval, base)
  {
    FinishedAre(ts, eval, base);
    var t := Finished(ts, eval, base)[j];
    assert t in Finished(ts, eval, base);
    i :| 0 <= i < |ts| && ts[i] == t;
  }

  lemma {:induction false} EmittedNow(ts: Tracks, eval: nat, base: int, i: nat)
    requires i < |ts.list| && Rising(ts.list)
    ensures ts.list[i].id in Ids(Finished(ts.list, eval, base)) <==> ts.list[i].Done(eval, base)
  {
    var f := Finished(ts.list, eval, base);
    FinishedAre(ts.list, eval, base);
    if ts.list[i].Done(eval, base) {
      var j :| 0 <= j < |f| && f[j] == ts.list[i];
      assert Ids(f)[j] == ts.list[i].id;
    } else if ts.list[i].id in Ids(f) {
      var j :| 0 <= j < |f| && Ids(f)[j] == ts.list[i].id;
      var i' := FromList(ts.list, eval, base, j);
    }
  }

  // ---------- frequency buckets ----------

  /** Buckets `[FirstBucket(lo), EndBucket(hi))` are those the interval touches, with one
      of margin on each side. */
  function FirstBucket(lo: real, width: real): int
    requires 0.0 < width
  {
    (lo / width).Floor - 1
  }

  function EndBucket(hi: real, width: real): int
    requires 0.0 < width
  {
    (hi / width).Floor + 2
  }

  lemma {:induction false} DivMonotone(a: real, b: real, width: real)
    requires 0.0 < width && a <= b
    ensures a / width <= b / width
  {
  }

  lemma {:induction false} FloorMonotone(a: real, b: real, width: real)
    requires 0.0 < width && a <= b
    ensures (a / width).Floor <= (b / width).Floor
  {
    DivMonotone(a, b, width);
  }

  /** Intervals that overlap share a bucket. */
  lemma {:induction false} OverlapSharesBucket(lo: real, hi: real, lo': real, hi': real, width: real) returns (k: int)
    requires 0.0 < width && lo <= hi && lo' <= hi' && lo <= hi' && lo' <= hi
    ensures FirstBucket(lo, width) <= k < EndBucket(hi, width)
    ensures FirstBucket(lo', width) <= k < EndBucket(hi', width)
  {
    var x := MaxReal(lo, lo');
    k := (x / width).Floor;
    FloorMonotone(lo, x, width);
    FloorMonotone(lo', x, width);
    FloorMonotone(x, hi, width);
    FloorMonotone(x, hi', width);
  }

  /** The test on centres and bandwidths says exactly that the burst overlaps the track's
      interval widened by the tolerance on both sides. */
  lemma {:induction false} ClosenessIsOverlap(t: TrackState, b: Burst, tol: real)
    requires t.Valid()
    ensures Abs(b.center - t.center) <= tol + (b.Hi() - b.Lo() + t.fHi - t.fLo) / 2.0
      <==> b.Lo() <= t.fHi + tol && t.fLo - tol <= b.Hi()
  {
    var half := b.bandwidth / 2.0;
    assert b.Hi() - b.Lo() == half + half;
  }

  /** A burst shares a bucket with every track that it matches. */
  lemma {:induction false} MatchSharesBucket(t: TrackState, b: Burst, tol: real) returns (k: int)
    requires 0.0 < tol && 0.0 <= b.bandwidth && t.Valid() && t.Matches(b, tol)
    ensures FirstBucket(b.Lo(), tol) <= k < EndBucket(b.Hi(), tol)
    ensures FirstBucket(t.fLo - tol, tol) <= k < EndBucket(t.fHi + tol, tol)
  {
    ClosenessIsOverlap(t, b, tol);
    k := OverlapSharesBucket(b.Lo(), b.Hi(), t.fLo - tol, t.fHi + tol, tol);
  }

  // ---------- the tracker ----------

  class Track {
    ghost const id: nat
    var absStart: int
    var absEnd: int
    var fLo: real
    var fHi: real
    var center: real
    var peakPower: real
    var peakFreq: real
    var lastEval: nat
    var stillGrowing: bool
    var emitted: bool

    ghost function State(): TrackState
      reads this
    {
      TrackState(id, absStart, absEnd, fLo, fHi, center, peakPower, peakFreq, lastEval, stillGrowing, emitted)
    }

    constructor (b: Burst, ghost id: nat, evalCount: nat)
      ensures State() == NewTrack(b, id, evalCount)
    {
      this.id := id;
      absStart, absEnd, fLo, fHi, center := b.absStart, b.absEnd, b.Lo(), b.Hi(), b.center;
      peakPower, peakFreq := b.peakPower, b.peakFreq;
      lastEval, stillGrowing, emitted := evalCount, b.growing, false;
    }

    predicate Matches(b: Burst, tol: real)
      reads this
      ensures Matches(b, tol) == State().Matches(b, tol)
    {
      && Abs(b.center - center) <= tol + (b.Hi() - b.Lo() + fHi - fLo) / 2.0
      && b.absStart <= absEnd + 3 && b.absEnd >= absStart - 3
    }

    /** Takes a detection in; `widened` when the frequency interval grew. */
    method Extend(b: Burst, evalCount: nat) returns (widened: bool)
      modifies this
      ensures State() == Merged(old(State()), b, evalCount)
      ensures widened <==> fLo != old(fLo) || fHi != old(fHi)
    {
      absStart := MinInt(absStart, b.absStart);
      absEnd := MaxInt(absEnd, b.absEnd);
      widened := b.Lo() < fLo || b.Hi() > fHi;
      fLo := MinReal(fLo, b.Lo());
      fHi := MaxReal(fHi, b.Hi());
      center := (fLo + fHi) / 2.0;
      if b.peakPower > peakPower {
        peakFreq := b.peakFreq;
      }
      peakPower := MaxReal(peakPower, b.peakPower);
      lastEval := evalCount;
      stillGrowing := b.growing;
    }

    method MarkEmitted()
      modifies this`emitted
      ensures State() == old(State()).(emitted := true)
    {
      emitted := true;
    }
  }

  ghost predicate InBucket(index: map<int, seq<Track>>, k: int, t: Track) {
    k in index && t in index[k]
  }

  /** `t` is listed under every bucket that its widened interval touches. */
  ghost predicate Indexed(index: map<int, seq<Track>>, t: Track, lo: real, hi: real, tol: real)
    requires 0.0 < tol
  {
    forall k :: FirstBucket(lo - tol, tol) <= k < EndBucket(hi + tol, tol) ==> InBucket(index, k, t)
  }

  predicate Ordered(ts: seq<Track>, order: map<Track, nat>) {
    && (forall i :: 0 <= i < |ts| ==> ts[i] in order)
    && forall i, j :: 0 <= i < j < |ts| ==> order[ts[i]] < order[ts[j]]
  }

  /** Where `t` belongs in `ts`: behind every track of smaller order. */
  function PlaceOf(ts: seq<Track>, t: Track, order: map<Track, nat>): (i: nat)
    requires Ordered(ts, order) && t in order
    ensures i <= |ts|
    ensures forall j :: 0 <= j < i ==> order[ts[j]] < order[t]
    ensures i < |ts| ==> order[t] <= order[ts[i]]
  {
    if ts == [] || order[t] <= order[ts[0]] then 0 else 1 + PlaceOf(ts[1..], t, order)
  }

  /** `ts` with `t` in its place, once. */
  function Insert(ts: seq<Track>, t: Track, order: map<Track, nat>): (r: seq<Track>)
    requires Ordered(ts, order) && t in order
  {
    var i := PlaceOf(ts, t, order);
    if i < |ts| && ts[i] == t then ts else ts[..i] + [t] + ts[i..]
  }

  lemma {:induction false} InsertKeepsOrder(ts: seq<Track>, t: Track, order: map<Track, nat>)
    requires Ordered(ts, order) && t in order
    requires forall u :: u in ts && order[u] == order[t] ==> u == t
    ensures Ordered(Insert(ts, t, order), order)
  {
    hide PlaceOf;
    var i := PlaceOf(ts, t, order);
    assert i < |ts| ==> ts[i] in ts;
  }

  lemma {:induction false} InsertHolds(ts: seq<Track>, t: Track, order: map<Track, nat>)
    requires Ordered(ts, order) && t in order
    ensures t in Insert(ts, t, order)
    ensures forall u :: u in Insert(ts, t, order) ==> u in ts || u == t
    ensures forall u :: u in ts ==> u in Insert(ts, t, order)
  {
    hide PlaceOf;
    var i := PlaceOf(ts, t, order);
    assert ts == ts[..i] + ts[i..];
  }

  class Tracker {
    /** The matching tolerance, which is also the width of a bucket. */
    const tol: real
    var tracked: seq<Track>
    var index: map<int, seq<Track>>
    /** Insertion order of each track. */
    var order: map<Track, nat>
    var nextOrder: nat
    var evalCount: nat
    /** What the tracks hold, and the tracks emitted so far. */
    ghost var tracks: Tracks
    ghost var out: seq<nat>
    /** The detections behind each track ever made. */
    ghost var stories: seq<seq<Sighting>>

    ghost predicate OrderOk()
      reads `tracked, `order, `nextOrder
    {
      && nextOrder == |tracked|
      && (forall i :: 0 <= i < |tracked| ==> tracked[i] in order && order[tracked[i]] == i)
    }

    /** The ghost list shows the state of each track. */
    ghost predicate Shown()
      reads `tracked, `tracks, tracked
    {
      && |tracked| == |tracks.list|
      && forall i :: 0 <= i < |tracked| ==> tracked[i].State() == tracks.list[i]
    }

    ghost predicate TracksOk()
      reads `tracks
    {
      forall i :: 0 <= i < |tracks.list| ==> tracks.list[i].Valid()
    }

    ghost predicate IndexOk()
      reads `tracked, `tracks, `index
    {
      && 0.0 < tol && |tracked| == |tracks.list|
      && (forall i :: 0 <= i < |tracked| ==>
            Indexed(index, tracked[i], tracks.list[i].fLo, tracks.list[i].fHi, tol))
      && (forall k :: k in index ==> forall t :: t in index[k] ==> t in tracked)
    }

    ghost predicate Consistent()
      reads this, tracked
    {
      OrderOk() && Shown() && TracksOk() && IndexOk() && Ledger(tracks, out)
    }

    ghost predicate Valid()
      reads this, tracked
    {
      Consistent() && AllShow(tracks, stories)
    }

    constructor (tol: real)
      requires 0.0 < tol
      ensures Valid() && tracks == Tracks([], 0) && out == []
      ensures this.tol == tol && evalCount == 0
    {
      this.tol := tol;
      tracked, index, order, nextOrder, evalCount := [], map[], map[], 0, 0;
      tracks, out, stories := Tracks([], 0), [], [];
    }

    method NextEvaluation()
      requires Valid()
      modifies `evalCount
      ensures Valid() && evalCount == old(evalCount) + 1
    {
      evalCount := evalCount + 1;
    }

    /** The tracks that could match a burst, in insertion order: every match is among them. */
    method Candidates(b: Burst) returns (cs: seq<Track>)
      requires Valid() && 0.0 <= b.bandwidth
      ensures Ordered(cs, order)
      ensures forall t :: t in cs ==> t in tracked
      ensures forall i :: 0 <= i < |tracked| && tracked[i].Matches(b, tol) ==> tracked[i] in cs
    {
      hide Ledger, FirstBucket, EndBucket;
      cs := [];
      var lo, hi := FirstBucket(b.Lo(), tol), EndBucket(b.Hi(), tol);
      for k := lo to MaxInt(lo, hi)
        invariant Ordered(cs, order)
        invariant forall t :: t in cs ==> t in tracked
        invariant forall k' :: lo <= k' < k && k' in index ==> forall t :: t in index[k'] ==> t in cs
      {
        if k in index {
          cs := AddBucket(cs, index[k]);
        }
      }
      forall i | 0 <= i < |tracked| && tracked[i].Matches(b, tol)
        ensures tracked[i] in cs
      {
        var k := MatchSharesBucket(tracks.list[i], b, tol);
        assert InBucket(index, k, tracked[i]);
      }
    }

    lemma {:induction false} OrderIsExact()
      requires OrderOk()
      ensures forall t :: t in tracked ==> t in order
      ensures forall t, u :: t in tracked && u in tracked && order[t] == order[u] ==> t == u
    {
      forall t, u | t in tracked && u in tracked && order[t] == order[u]
        ensures t == u
      {
        var i :| 0 <= i < |tracked| && tracked[i] == t;
        var j :| 0 <= j < |tracked| && tracked[j] == u;
      }
    }

    method AddBucket(cs: seq<Track>, bucket: seq<Track>) returns (r: seq<Track>)
      requires OrderOk() && Ordered(cs, order)
      requires forall t :: t in cs ==> t in tracked
      requires forall t :: t in bucket ==> t in tracked
      ensures Ordered(r, order)
      ensures forall t :: t in r ==> t in tracked
      ensures forall t :: t in cs || t in bucket ==> t in r
    {
      r := cs;
      for j := 0 to |bucket|
        invariant Ordered(r, order)
        invariant forall t :: t in r ==> t in tracked
        invariant forall t :: t in cs || t in bucket[..j] ==> t in r
      {
        assert bucket[..j + 1] == bucket[..j] + [bucket[j]];
        OrderIsExact();
        InsertKeepsOrder(r, bucket[j], order);
        InsertHolds(r, bucket[j], order);
        r := Insert(r, bucket[j], order);
      }
    }

    /** The first candidate that matches is the track the scan of all tracks finds. */
    method FindMatch(b: Burst) returns (t: Track?)
      requires Valid() && 0.0 <= b.bandwidth
      ensures t != null <==> FirstMatch(tracks.list, b, tol) < |tracked|
      ensures t != null ==> t == tracked[FirstMatch(tracks.list, b, tol)]
    {
      hide Ledger, Indexed, FirstMatch;
      var cs := Candidates(b);
      for j := 0 to |cs|
        invariant forall j' :: 0 <= j' < j ==> !cs[j'].Matches(b, tol)
      {
        if cs[j].Matches(b, tol) {
          assert cs[j] in tracked;
          FirstOfOrdered(cs, j, b);
          return cs[j];
        }
      }
      NoneMatches(cs, b);
      return null;
    }

    lemma {:induction false} NoneMatches(cs: seq<Track>, b: Burst)
      requires Shown()
      requires forall i :: 0 <= i < |tracked| && tracked[i].Matches(b, tol) ==> tracked[i] in cs
      requires forall j :: 0 <= j < |cs| ==> !cs[j].Matches(b, tol)
      ensures FirstMatch(tracks.list, b, tol) == |tracked|
    {
      hide FirstMatch;
      forall i | 0 <= i < |tracked|
        ensures !tracks.list[i].Matches(b, tol)
      {
        assert tracked[i] in cs ==> exists j :: 0 <= j < |cs| && cs[j] == tracked[i];
      }
    }

    lemma {:induction false} FirstOfOrdered(cs: seq<Track>, j: nat, b: Burst)
      requires OrderOk() && Shown() && Ordered(cs, order) && j < |cs|
      requires forall t :: t in cs ==> t in tracked
      requires forall i :: 0 <= i < |tracked| && tracked[i].Matches(b, tol) ==> tracked[i] in cs
      requires cs[j].Matches(b, tol)
      requires forall j' :: 0 <= j' < j ==> !cs[j'].Matches(b, tol)
      ensures FirstMatch(tracks.list, b, tol) < |tracked|
      ensures cs[j] == tracked[FirstMatch(tracks.list, b, tol)]
    {
      hide FirstMatch;
      var first := FirstMatch(tracks.list, b, tol);
      assert cs[j] in tracked;
      var i :| 0 <= i < |tracked| && tracked[i] == cs[j];
      assert tracks.list[i].Matches(b, tol);
      assert tracked[first].Matches(b, tol);
      var j' :| 0 <= j' < |cs| && cs[j'] == tracked[first];
      assert order[cs[j']] == first && order[cs[j]] == i;
    }

    /** Lists `t` under every bucket its widened interval touches, and changes nothing else. */
    method IndexTrack(t: Track)
      requires 0.0 < tol
      modifies `index
      ensures Indexed(index, t, t.fLo, t.fHi, tol)
      ensures forall k, u :: InBucket(old(index), k, u) ==> InBucket(index, k, u)
      ensures forall k, u :: InBucket(index, k, u) ==> InBucket(old(index), k, u) || u == t
    {
      var lo, hi := FirstBucket(t.fLo - tol, tol), EndBucket(t.fHi + tol, tol);
      for k := lo to MaxInt(lo, hi)
        invariant forall k' :: lo <= k' < k ==> InBucket(index, k', t)
        invariant forall k', u :: InBucket(old(index), k', u) ==> InBucket(index, k', u)
        invariant forall k', u :: InBucket(index, k', u) ==> InBucket(old(index), k', u) || u == t
      {
        ghost var was := index;
        index := index[k := (if k in index then index[k] else []) + [t]];
        assert forall k', u :: InBucket(was, k', u) ==> InBucket(index, k', u);
      }
    }

    /** Listing more keeps what is listed. */
    lemma {:induction false} IndexGrows(was: map<int, seq<Track>>, now: map<int, seq<Track>>, t: Track)
      requires 0.0 < tol && |tracked| == |tracks.list|
      requires forall k, u :: InBucket(was, k, u) ==> InBucket(now, k, u)
      requires forall k, u :: InBucket(now, k, u) ==> InBucket(was, k, u) || u == t
      requires forall i :: 0 <= i < |tracked| && tracked[i] != t ==>
        Indexed(was, tracked[i], tracks.list[i].fLo, tracks.list[i].fHi, tol)
      requires forall i :: 0 <= i < |tracked| && tracked[i] == t ==>
        Indexed(now, tracked[i], tracks.list[i].fLo, tracks.list[i].fHi, tol)
      requires forall k :: k in was ==> forall u :: u in was[k] ==> u in tracked
      requires t in tracked && now == index
      ensures IndexOk()
    {
      hide FirstBucket, EndBucket;
      forall i | 0 <= i < |tracked| && tracked[i] != t
        ensures Indexed(now, tracked[i], tracks.list[i].fLo, tracks.list[i].fHi, tol)
      {
      }
      forall k, u | k in now && u in now[k]
        ensures u in tracked
      {
        assert InBucket(now, k, u);
        assert u == t || InBucket(was, k, u);
      }
    }

    lemma {:induction false} SameLength()
      requires Shown()
      ensures |tracked| == |tracks.list|
    {
    }

    /** One detection: the index finds what the scan of all tracks finds. */
    method Absorb(b: Burst)
      requires Valid() && 0.0 <= b.bandwidth
      modifies this`tracked, this`index, this`order, this`nextOrder, this`tracks, this`stories, tracked
      ensures Valid()
      ensures tracks == AbsorbScan(old(tracks), b, evalCount, tol)
      ensures Told(old(tracks), old(stories), stories, Sighting(b, evalCount), tol)
      ensures forall i :: 0 <= i < |tracked| ==> tracked[i] in old(tracked) || fresh(tracked[i])
    {
      hide Ledger, FirstMatch, AbsorbScan, OrderOk, IndexOk, Shown, AllShow, Told;
      var t := FindMatch(b);
      AbsorbKeepsLedger(tracks, b, evalCount, tol, out);
      AbsorbShows(tracks, stories, b, evalCount, tol, out);
      SameLength();
      stories := MoreStories(tracks, stories, b, evalCount, tol);
      if t != null {
        ExtendTrack(t, b);
      } else {
        AddTrack(b);
      }
    }

    method ExtendTrack(t: Track, b: Burst)
      requires Consistent() && 0.0 <= b.bandwidth
      requires FirstMatch(tracks.list, b, tol) < |tracked| && t == tracked[FirstMatch(tracks.list, b, tol)]
      requires Ledger(AbsorbScan(tracks, b, evalCount, tol), out)
      modifies this`index, this`tracks, t
      ensures Consistent()
      ensures tracks == AbsorbScan(old(tracks), b, evalCount, tol)
    {
      hide Ledger, FirstMatch, FirstBucket, EndBucket;
      ghost var i := FirstMatch(tracks.list, b, tol);
      var widened := t.Extend(b, evalCount);
      tracks := AbsorbScan(tracks, b, evalCount, tol);
      assert OrderOk() && Shown() && TracksOk();
      if widened {
        IndexTrack(t);
        IndexGrows(old(index), index, t);
      }
    }

    /** The list and the order with one more track. */
    method Append(t: Track, ghost now: Tracks)
      requires OrderOk() && Shown() && TracksOk() && t !in tracked
      requires |now.list| == |tracks.list| + 1 && now.list[..|tracks.list|] == tracks.list
      requires t.State() == now.list[|tracks.list|] && t.State().Valid()
      modifies this`tracked, this`order, this`nextOrder, this`tracks
      ensures OrderOk() && Shown() && TracksOk()
      ensures tracked == old(tracked) + [t] && tracks == now
    {
      tracks := now;
      tracked := tracked + [t];
      order := order[t := nextOrder];
      nextOrder := nextOrder + 1;
    }

    method AddTrack(b: Burst)
      requires Consistent() && 0.0 <= b.bandwidth && FirstMatch(tracks.list, b, tol) == |tracked|
      requires Ledger(AbsorbScan(tracks, b, evalCount, tol), out)
      modifies this`tracked, this`index, this`order, this`nextOrder, this`tracks
      ensures Consistent()
      ensures tracks == AbsorbScan(old(tracks), b, evalCount, tol)
      ensures |tracked| == |old(tracked)| + 1 && tracked[..|old(tracked)|] == old(tracked)
      ensures fresh(tracked[|old(tracked)|])
    {
      hide Ledger, FirstMatch, FirstBucket, EndBucket;
      var t := new Track(b, tracks.born, evalCount);
      Append(t, AbsorbScan(tracks, b, evalCount, tol));
      IndexTrack(t);
      IndexGrows(old(index), index, t);
    }

    /** `keep` shows the states `ss`, and names only tracks below `n`, each once. */
    ghost predicate Keeps(keep: seq<Track>, ss: seq<TrackState>, n: nat)
      requires n <= |tracked|
      reads `tracked, keep
    {
      && |keep| == |ss|
      && (forall j :: 0 <= j < |keep| ==> keep[j].State() == ss[j] && keep[j] in tracked[..n])
      && forall j, j' :: 0 <= j < j' < |keep| ==> keep[j] != keep[j']
    }

    /** Emits each track that is due, marks it, and drops what scrolled out of the window. */
    method CollectFinished<Row(0)>(base: int, rows: RollingWindow<Row>) returns (finished: seq<Fingerprint>)
      requires Valid() && rows.Valid() && Within(tracks.list, rows.totalRows)
      modifies this`tracked, this`index, this`order, this`nextOrder, this`tracks, this`out, tracked
      ensures Valid()
      ensures tracks == Tracks(Kept(old(tracks).list, evalCount, base), old(tracks).born)
      ensures Within(Finished(old(tracks).list, evalCount, base), |rows.pos|)
      ensures finished == FingerprintsOf(Finished(old(tracks).list, evalCount, base), rows.pos, rows.slice, 2 * rows.size)
      ensures out == old(out) + Ids(Finished(old(tracks).list, evalCount, base))
      ensures AllReport(finished, out[|old(out)|..], stories, rows.pos, rows.slice, 2 * rows.size)
      ensures forall t :: t in tracked ==> t in old(tracked)
      ensures rows.Valid()
    {
      hide Ledger, OrderOk, IndexOk, FingerprintsOf, Within, Kept, Finished, rows.Valid, AllShow, AllReport, Shows;
      ghost var was := tracks.list;
      CollectKeepsLedger(tracks, evalCount, base, out);
      KeptShow(tracks, stories, evalCount, base);
      KeptValid(was, evalCount, base);
      FinishedReportNow(base, rows);
      TolIsPositive();
      var keep;
      finished, keep := MarkFinished(base, rows);
      assert forall t :: t in keep ==> t in tracked[..|tracked|];
      Install(keep, Kept(was, evalCount, base));
      out := out + Ids(Finished(was, evalCount, base));
    }

    lemma {:induction false} FinishedReportNow<Row(0)>(base: int, rows: RollingWindow<Row>)
      requires Valid() && rows.Valid() && Within(tracks.list, rows.totalRows)
      ensures Within(Finished(tracks.list, evalCount, base), |rows.pos|)
      ensures var f := Finished(tracks.list, evalCount, base);
        AllReport(FingerprintsOf(f, rows.pos, rows.slice, 2 * rows.size), Ids(f), stories, rows.pos, rows.slice,
                  2 * rows.size)
    {
      hide Ledger, OrderOk, IndexOk, Shown, AllShow, AllReport, FingerprintsOf, Within;
      FinishedWithin(tracks.list, evalCount, base, rows.totalRows);
      FinishedReport(tracks, stories, evalCount, base, rows.pos, rows.slice, 2 * rows.size);
    }

    lemma {:induction false} TolIsPositive()
      requires IndexOk()
      ensures 0.0 < tol
    {
    }

    method Install(keep: seq<Track>, ghost ss: seq<TrackState>)
      requires 0.0 < tol && |keep| == |ss|
      requires forall j :: 0 <= j < |keep| ==> keep[j].State() == ss[j]
      requires forall j, j' :: 0 <= j < j' < |keep| ==> keep[j] != keep[j']
      modifies `tracked, `index, `order, `nextOrder, `tracks
      ensures tracked == keep && tracks == Tracks(ss, old(tracks).born)
      ensures OrderOk() && Shown() && IndexOk()
    {
      tracked := keep;
      tracks := Tracks(ss, tracks.born);
      RebuildOrder();
      RebuildIndex();
    }

    lemma {:induction false} KeptValid(ts: seq<TrackState>, eval: nat, base: int)
      requires forall i :: 0 <= i < |ts| ==> ts[i].Valid()
      ensures forall i :: 0 <= i < |Kept(ts, eval, base)| ==> Kept(ts, eval, base)[i].Valid()
    {
      if ts == [] {
      } else {
        KeptValid(ts[..|ts| - 1], eval, base);
      }
    }

    /** The loop of the source over all tracks. */
    method MarkFinished<Row(0)>(base: int, rows: RollingWindow<Row>) returns (finished: seq<Fingerprint>,
                            keep: seq<Track>)
      requires OrderOk() && Shown() && rows.Valid() && Within(tracks.list, rows.totalRows)
      modifies tracked
      ensures rows.Valid()
      ensures Within(Finished(tracks.list, evalCount, base), |rows.pos|)
      ensures finished == FingerprintsOf(Finished(tracks.list, evalCount, base), rows.pos, rows.slice, 2 * rows.size)
      ensures Keeps(keep, Kept(tracks.list, evalCount, base), |tracked|)
    {
      hide FingerprintOf, FingerprintsOf, rows.Valid;
      finished, keep := [], [];
      for i := 0 to |tracked|
        invariant rows.Valid()
        invariant forall j :: i <= j < |tracked| ==> tracked[j].State() == tracks.list[j]
        invariant Within(Finished(tracks.list[..i], evalCount, base), |rows.pos|)
        invariant finished == FingerprintsOf(Finished(tracks.list[..i], evalCount, base), rows.pos, rows.slice, 2 * rows.size)
        invariant Keeps(keep, Kept(tracks.list[..i], evalCount, base), i)
      {
        finished, keep := CollectOne(i, base, rows, finished, keep);
      }
      assert tracks.list[..|tracked|] == tracks.list;
    }

    method CollectOne<Row(0)>(i: nat, base: int, rows: RollingWindow<Row>, finished: seq<Fingerprint>, keep: seq<Track>)
      returns (finished': seq<Fingerprint>, keep': seq<Track>)
      requires i < |tracked| == |tracks.list| && tracked[i].State() == tracks.list[i]
      requires forall j :: 0 <= j < i ==> tracked[j] != tracked[i]
      requires rows.Valid() && Within(tracks.list, rows.totalRows)
      requires Within(Finished(tracks.list[..i], evalCount, base), |rows.pos|)
      requires finished == FingerprintsOf(Finished(tracks.list[..i], evalCount, base), rows.pos, rows.slice, 2 * rows.size)
      requires Keeps(keep, Kept(tracks.list[..i], evalCount, base), i)
      modifies tracked[i]
      ensures rows.Valid()
      ensures Within(Finished(tracks.list[..i + 1], evalCount, base), |rows.pos|)
      ensures finished' == FingerprintsOf(Finished(tracks.list[..i + 1], evalCount, base), rows.pos, rows.slice, 2 * rows.size)
      ensures Keeps(keep', Kept(tracks.list[..i + 1], evalCount, base), i + 1)
    {
      hide Finished, Kept, FingerprintOf;
      var t := tracked[i];
      PickedSnoc(tracks.list, i, evalCount, base);
      finished', keep' := finished, keep;
      var scrolledOut := t.absEnd < base;
      if !t.emitted && ((t.lastEval == evalCount && !t.stillGrowing) || scrolledOut) {
        var fp := ToFingerprint(t, rows);
        finished' := finished + [fp];
        t.MarkEmitted();
      }
      if !scrolledOut {
        keep' := keep + [t];
      }
    }

    static method ToFingerprint<Row(0)>(t: Track, rows: RollingWindow<Row>) returns (fp: Fingerprint)
      requires rows.Valid() && 0 <= t.absStart && 0 <= t.absEnd <= rows.totalRows
      ensures fp == FingerprintOf(t.State(), rows.pos, rows.slice, 2 * rows.size)
    {
      var samples := rows.Span(t.absStart, t.absEnd);
      fp := Fingerprint(rows.totalRows - t.absStart, rows.totalRows - t.absEnd, t.absEnd - t.absStart,
                        t.center, t.peakFreq, MaxReal(t.fHi - t.fLo, 0.0), t.peakPower, samples);
    }

    /** The order, made again from the tracks kept. */
    method RebuildOrder()
      requires forall i, j :: 0 <= i < j < |tracked| ==> tracked[i] != tracked[j]
      modifies `order, `nextOrder
      ensures OrderOk()
    {
      order := map[];
      for i := 0 to |tracked|
        invariant forall j :: 0 <= j < i ==> tracked[j] in order && order[tracked[j]] == j
      {
        order := order[tracked[i] := i];
      }
      nextOrder := |tracked|;
    }

    /** The index, made again from the tracks kept. */
    method RebuildIndex()
      requires 0.0 < tol && Shown()
      modifies `index
      ensures IndexOk()
    {
      hide FirstBucket, EndBucket, Indexed;
      index := map[];
      for i := 0 to |tracked|
        invariant forall j :: 0 <= j < i ==>
          Indexed(index, tracked[j], tracks.list[j].fLo, tracks.list[j].fHi, tol)
        invariant forall k, u :: InBucket(index, k, u) ==> u in tracked
      {
        ghost var was := index;
        IndexTrack(tracked[i]);
        forall j | 0 <= j < i
          ensures Indexed(index, tracked[j], tracks.list[j].fLo, tracks.list[j].fHi, tol)
        {
          StaysIndexed(was, index, tracked[j], tracks.list[j].fLo, tracks.list[j].fHi);
        }
      }
      assert forall k, u :: k in index && u in index[k] ==> InBucket(index, k, u);
    }

    lemma {:induction false} StaysIndexed(was: map<int, seq<Track>>, now: map<int, seq<Track>>, t: Track, lo: real,
                                          hi: real)
      requires 0.0 < tol && Indexed(was, t, lo, hi, tol)
      requires forall k, u :: InBucket(was, k, u) ==> InBucket(now, k, u)
      ensures Indexed(now, t, lo, hi, tol)
    {
    }
  }
}
