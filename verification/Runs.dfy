/**
 The runs of a schedule (`schedules/model.py`) and which of them the engine reports missed
 or starts (`schedules/engine.py`). One schedule is followed from the engine's first chunk:
 the runs it handles form one gapless stretch, each once and in order.
 */
module Runs {
  import opened Arith
  import opened Wrappers

  /** Times in milliseconds. A schedule without `everyMs` has a single run. */
  datatype Schedule = Schedule(startMs: int, everyMs: Option<nat>, count: Option<nat>, untilMs: Option<int>, createdMs: int)
  {
    /** What the schedule's parser accepts. */
    predicate Valid() {
      match everyMs
      case None => count.None? && untilMs.None?
      case Some(e) => 0 < e && (count.Some? <==> untilMs.None?) && (count.Some? ==> 0 < count.value)
    }
  }

  function CeilDiv(a: int, d: nat): int
    requires 0 < d
  {
    -((-a) / d)
  }

  function RunStart(s: Schedule, k: int): int {
    s.startMs + k * (if s.everyMs.Some? then s.everyMs.value else 0)
  }

  function TotalRuns(s: Schedule): nat
    requires s.Valid()
  {
    if s.everyMs.None? then 1
    else if s.count.Some? then s.count.value
    else
      var n := CeilDiv(s.untilMs.value - s.startMs, s.everyMs.value);
      if n < 0 then 0 else n
  }

  function FirstRunFrom(s: Schedule, t: int): Option<nat>
    requires s.Valid()
  {
    if t <= s.startMs then (if 0 < TotalRuns(s) then Some(0) else None)
    else if s.everyMs.None? then None
    else
      CeilNotNegative(t - s.startMs, s.everyMs.value);
      var k := CeilDiv(t - s.startMs, s.everyMs.value);
      if k < TotalRuns(s) then Some(k) else None
  }

  function Range(a: nat, b: nat): (r: seq<nat>)
    ensures |r| == if a < b then b - a else 0
    ensures forall i :: 0 <= i < |r| ==> r[i] == a + i
  {
    if a < b then seq(b - a, i requires 0 <= i => a + i) else []
  }

  function RunsBetween(s: Schedule, t0: int, t1: int, limit: nat): seq<nat>
    requires s.Valid()
  {
    var first := FirstRunFrom(s, t0);
    if first.None? then []
    else
      var end := FirstRunFrom(s, t1);
      var last := (if end.None? then TotalRuns(s) else end.value) - 1;
      if last < first.value then [] else Range(MaxInt(first.value, last - limit + 1), last + 1)
  }

  // ---------- the run arithmetic is exact ----------

  /** `k * d < a` exactly when `k` is below the rounded-up quotient. */
  lemma {:induction false} CeilIs(a: int, d: nat, k: int)
    requires 0 < d
    ensures k * d < a <==> k < CeilDiv(a, d)
  {
    var q := (-a) / d;
    assert -a == d * q + (-a) % d;
    if k < -q {
      MulMonotone(k, -q - 1, d);
      assert (-q - 1) * d == -(q * d) - d;
    } else {
      MulMonotone(-q, k, d);
    }
  }

  lemma {:induction false} CeilNotNegative(a: int, d: nat)
    requires 0 < d && 0 < a
    ensures 0 <= CeilDiv(a, d)
  {
    CeilIs(a, d, 0);
  }

  /** A run starts before `t` exactly when it is below the first run from `t`. */
  lemma {:induction false} StartsBeforeIff(s: Schedule, t: int, k: nat)
    requires s.Valid() && k < TotalRuns(s)
    ensures RunStart(s, k) < t <==> FirstRunFrom(s, t).None? || k < FirstRunFrom(s, t).value
  {
    if s.everyMs.Some? {
      var e := s.everyMs.value;
      CeilIs(t - s.startMs, e, k);
      if t <= s.startMs {
        MulMonotone(0, k, e);
      }
    }
  }

  lemma {:induction false} FirstRunFits(s: Schedule, t: int)
    requires s.Valid()
    ensures FirstRunFrom(s, t).Some? ==> FirstRunFrom(s, t).value < TotalRuns(s)
  {
  }

  /** A schedule with an end has exactly the runs that start before it. */
  lemma {:induction false} TotalIs(s: Schedule, k: nat)
    requires s.Valid() && s.everyMs.Some? && s.untilMs.Some?
    ensures k < TotalRuns(s) <==> RunStart(s, k) < s.untilMs.value
  {
    CeilIs(s.untilMs.value - s.startMs, s.everyMs.value, k);
  }

  /** Any other schedule has the runs it counts, the first at its start and each an interval
      after the one before. */
  lemma {:induction false} CountedRuns(s: Schedule, k: nat)
    requires s.Valid() && s.untilMs.None?
    ensures k < TotalRuns(s) <==> if s.count.Some? then k < s.count.value else k == 0
    ensures RunStart(s, 0) == s.startMs
    ensures s.everyMs.Some? ==> RunStart(s, k + 1) - RunStart(s, k) == s.everyMs.value
  {
    if s.everyMs.Some? {
      assert (k + 1) * s.everyMs.value == k * s.everyMs.value + s.everyMs.value;
    }
  }

  lemma {:induction false} StartsIncrease(s: Schedule, j: nat, k: nat)
    requires s.Valid() && j < k < TotalRuns(s)
    ensures RunStart(s, j) < RunStart(s, k)
  {
    MulMonotone(j + 1, k, s.everyMs.value);
    assert (j + 1) * s.everyMs.value == j * s.everyMs.value + s.everyMs.value;
  }

  /** The runs in `[t0, t1)`, and of those the newest `limit`. */
  lemma {:induction false} RunsBetweenExact(s: Schedule, t0: int, t1: int, limit: nat, k: nat)
    requires s.Valid()
    ensures var r := RunsBetween(s, t0, t1, limit);
      && |r| <= limit
      && (k in r ==> k < TotalRuns(s) && t0 <= RunStart(s, k) < t1)
      && (k < TotalRuns(s) && t0 <= RunStart(s, k) < t1 && k !in r ==> |r| == limit && forall i :: 0 <= i < |r| ==> k < r[i])
  {
    hide FirstRunFrom, RunStart, TotalRuns;
    var r := RunsBetween(s, t0, t1, limit);
    FirstRunFits(s, t0);
    FirstRunFits(s, t1);
    if k < TotalRuns(s) {
      StartsBeforeIff(s, t0, k);
      StartsBeforeIff(s, t1, k);
    }
    InRange(r, k);
  }

  lemma {:induction false} InRange(r: seq<nat>, k: nat)
    requires forall i :: 0 <= i < |r| ==> r[i] == r[0] + i
    ensures k in r <==> r != [] && r[0] <= k < r[0] + |r|
  {
    if r != [] && r[0] <= k < r[0] + |r| {
      assert r[k - r[0]] == k;
    }
  }
  /** After run `k` comes run `k + 1`, or none. */
  lemma {:induction false} NextRun(s: Schedule, k: nat)
    requires s.Valid() && k < TotalRuns(s)
    ensures FirstRunFrom(s, RunStart(s, k) + 1) == if k + 1 < TotalRuns(s) then Some(k + 1) else None
  {
    if s.everyMs.Some? {
      var e := s.everyMs.value;
      MulMonotone(0, k, e);
      CeilIs(k * e + 1, e, k);
      CeilIs(k * e + 1, e, k + 1);
      MulMonotone(k, k + 1, e);
      assert (k + 1) * e == k * e + e;
    }
  }

  // ---------- the engine's plan for a schedule ----------

  const RUNS_KEPT: nat := 500

  class RunPlan {
    const s: Schedule
    const graceMs: nat
    /** The newest run with an outcome, as the schedule book keeps it. */
    var last: Option<nat>
    /** The next run to start. */
    var next: Option<nat>
    var marked: bool
    /** The newest run with an outcome when the engine came up, and every run handled since,
        by reporting it missed or by starting it. */
    ghost const before: Option<nat>
    ghost var handled: seq<nat>

    /** A run without an outcome that the schedule already had to record. */
    ghost predicate Due(k: nat) {
      (before.None? || before.value < k) && RunStart(s, k) >= s.createdMs - graceMs
    }

    /** No run is handled twice, and they are handled in order. */
    ghost predicate InOrder()
      reads `handled, `last
    {
      && (forall i, j :: 0 <= i < j < |handled| ==> handled[i] < handled[j])
      && (forall i :: 0 <= i < |handled| ==> before.None? || before.value < handled[i])
      && (forall i :: 0 <= i < |handled| ==> last.Some? && handled[i] <= last.value)
      && last == if handled == [] then before else Some(handled[|handled| - 1])
    }

    /** Every due run below `upTo` was handled, but for those older than the newest
        `RUNS_KEPT` missed ones. */
    ghost predicate Covers(upTo: Option<nat>)
      requires s.Valid()
      reads `handled
    {
      forall k :: 0 <= k < TotalRuns(s) && Due(k) && (upTo.Some? ==> k < upTo.value) ==>
        k in handled || (|handled| >= RUNS_KEPT && k < handled[0])
    }

    ghost predicate Valid()
      reads this
    {
      && s.Valid() && InOrder()
      && (marked ==> Covers(next))
      && (marked && next.Some? ==> next.value < TotalRuns(s) && (last.None? || last.value < next.value))
      && (!marked ==> handled == [])
    }

    constructor (s: Schedule, graceMs: nat, last: Option<nat>)
      requires s.Valid()
      ensures Valid() && !marked && handled == [] && before == last
      ensures this.s == s && this.graceMs == graceMs
    {
      this.s, this.graceMs, this.last := s, graceMs, last;
      next, marked := None, false;
      before, handled := last, [];
    }

    /** The book keeps the largest run number reported. */
    method Report(k: nat)
      requires InOrder() && (last.None? || last.value < k)
      modifies `last, `handled
      ensures InOrder() && last == Some(k) && handled == old(handled) + [k]
    {
      if last.None? || k > last.value {
        last := Some(k);
      }
      handled := handled + [k];
    }

    /** Runs due while nothing was recording are missed. */
    method MarkMissed(nowMs: int)
      requires s.Valid() && InOrder() && handled == []
      modifies `last, `handled
      ensures InOrder()
      ensures forall k :: k in handled ==> k < TotalRuns(s) && Due(k) && RunStart(s, k) < nowMs - graceMs
      ensures forall k :: 0 <= k < TotalRuns(s) && Due(k) && RunStart(s, k) < nowMs - graceMs ==>
        k in handled || (|handled| == RUNS_KEPT && k < handled[0])
    {
      hide RunStart, TotalRuns, RunsBetween;
      if last.Some? && last.value + 1 >= TotalRuns(s) {
        return;
      }
      var t0 := if last.None? then s.startMs else RunStart(s, last.value + 1);
      t0 := MaxInt(t0, s.createdMs - graceMs);
      var runs := RunsBetween(s, t0, nowMs - graceMs, RUNS_KEPT);
      forall k: nat
        ensures k in runs ==> k < TotalRuns(s) && Due(k) && RunStart(s, k) < nowMs - graceMs
        ensures k < TotalRuns(s) && Due(k) && RunStart(s, k) < nowMs - graceMs ==>
          k in runs || (|runs| == RUNS_KEPT && k < runs[0])
      {
        RunsBetweenExact(s, t0, nowMs - graceMs, RUNS_KEPT, k);
        if k < TotalRuns(s) {
          DueIff(k);
        }
      }
      RunsInOrder(s, t0, nowMs - graceMs, RUNS_KEPT);
      for i := 0 to |runs|
        invariant InOrder() && handled == runs[..i]
      {
        assert runs[i] in runs;
        Report(runs[i]);
      }
      assert runs[..|runs|] == runs;
    }

    /** Due runs are those from the bound that `MarkMissed` works out. */
    lemma {:induction false} DueIff(k: nat)
      requires s.Valid() && k < TotalRuns(s) && (before.Some? ==> before.value + 1 < TotalRuns(s))
      ensures var t0 := if before.None? then s.startMs else RunStart(s, before.value + 1);
        Due(k) <==> MaxInt(t0, s.createdMs - graceMs) <= RunStart(s, k)
    {
      if before.None? {
        MulMonotone(0, k, if s.everyMs.Some? then s.everyMs.value else 0);
      } else if k < before.value + 1 {
        StartsIncrease(s, k, before.value + 1);
      } else if before.value + 1 < k {
        StartsIncrease(s, before.value + 1, k);
      }
    }

    /** Plans the first run that is still within the grace time and has no outcome. */
    method Refresh(nowMs: int)
      requires s.Valid() && InOrder() && !marked
      requires forall k :: k in handled ==> k < TotalRuns(s) && Due(k) && RunStart(s, k) < nowMs - graceMs
      requires forall k :: 0 <= k < TotalRuns(s) && Due(k) && RunStart(s, k) < nowMs - graceMs ==>
        k in handled || (|handled| == RUNS_KEPT && k < handled[0])
      modifies `next, `marked
      ensures Valid() && marked
      ensures next.Some? ==> RunStart(s, next.value) >= nowMs - graceMs
      ensures forall j :: 0 <= j < TotalRuns(s) && (next.Some? ==> j < next.value) ==>
        RunStart(s, j) < nowMs - graceMs || (last.Some? && j <= last.value)
    {
      hide FirstRunFrom, RunStart, TotalRuns;
      var k := FirstRunFrom(s, nowMs - graceMs);
      FirstRunFits(s, nowMs - graceMs);
      forall j: nat | j < TotalRuns(s)
        ensures RunStart(s, j) < nowMs - graceMs <==> k.None? || j < k.value
      {
        StartsBeforeIff(s, nowMs - graceMs, j);
      }
      assert handled != [] ==> handled[|handled| - 1] in handled;
      next := k;
      marked := true;
      if k.Some? && last.Some? && k.value <= last.value {
        next := if last.value + 1 < TotalRuns(s) then Some(last.value + 1) else None;
      }
    }

    /** Starts the planned run and plans the one after it. */
    method StartNext()
      requires Valid() && marked && next.Some?
      modifies `next, `last, `handled
      ensures Valid() && handled == old(handled) + [old(next).value]
      ensures next == if old(next).value + 1 < TotalRuns(s) then Some(old(next).value + 1) else None
    {
      hide FirstRunFrom, RunStart, TotalRuns;
      var k := next.value;
      Report(k);
      NextRun(s, k);
      next := FirstRunFrom(s, RunStart(s, k) + 1);
      assert handled[|handled| - 1] == k;
      CoversOneMore(old(handled), k);
    }

    lemma {:induction false} CoversOneMore(was: seq<nat>, k: nat)
      requires s.Valid() && handled == was + [k] && k < TotalRuns(s)
      requires forall j :: 0 <= j < TotalRuns(s) && Due(j) && j < k ==>
        j in was || (|was| >= RUNS_KEPT && j < was[0])
      ensures Covers(if k + 1 < TotalRuns(s) then Some(k + 1) else None)
    {
      hide RunStart, TotalRuns, Due;
      assert handled[|was|] == k;
      forall j | j in was
        ensures j in handled
      {
      }
    }

    /** Starts every run that begins before the chunk's end. */
    method StartDue(chunkEndMs: real)
      requires Valid() && marked
      modifies `next, `last, `handled
      ensures Valid() && marked
      ensures old(next).None? ==> next == None && handled == old(handled)
      ensures old(next).Some? ==>
        var m := if next.Some? then next.value else TotalRuns(s);
        handled == old(handled) + Range(old(next).value, m)
        && forall k :: old(next).value <= k < m ==> RunStart(s, k) as real < chunkEndMs
      ensures next.Some? ==> RunStart(s, next.value) as real >= chunkEndMs
    {
      hide FirstRunFrom, RunStart, TotalRuns, InOrder, Covers;
      ghost var first := next;
      while next.Some? && RunStart(s, next.value) as real < chunkEndMs
        invariant Valid() && marked
        invariant first.None? ==> next == None && handled == old(handled)
        invariant first.Some? ==> first.value < TotalRuns(s)
        invariant first.Some? && next.Some? ==> first.value <= next.value
        invariant first.Some? ==>
          var m := if next.Some? then next.value else TotalRuns(s);
          handled == old(handled) + Range(first.value, m)
          && forall k :: first.value <= k < m ==> RunStart(s, k) as real < chunkEndMs
        decreases if next.Some? then TotalRuns(s) - next.value else 0
      {
        ghost var k := next.value;
        StartNext();
        assert Range(first.value, k + 1) == Range(first.value, k) + [k];
      }
    }

    /** The engine's first chunk: what was missed, what comes next, and what is due by now. */
    method FirstChunk(nowMs: int, chunkEndMs: real)
      requires Valid() && !marked
      modifies `next, `marked, `last, `handled
      ensures Valid() && marked
      ensures next.Some? ==> RunStart(s, next.value) as real >= chunkEndMs
    {
      MarkMissed(nowMs);
      Refresh(nowMs);
      StartDue(chunkEndMs);
    }
  }

  lemma {:induction false} RunsInOrder(s: Schedule, t0: int, t1: int, limit: nat)
    requires s.Valid()
    ensures var r := RunsBetween(s, t0, t1, limit); forall i, j :: 0 <= i < j < |r| ==> r[i] < r[j]
  {
  }
}
