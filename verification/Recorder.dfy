/**
 A recording of the live stream (`pipeline/streaming.py`): the pre-roll taken by a
 start on another thread, then the receiver's chunks, with every loss accounted.

 Two threads share the state. The receiver goes through "log the chunk's gaps, write
 it to the ring, record it"; a start goes through "read the newest ring samples, map
 the logged gaps into them, anchor and begin recording". Each method below is one
 such atomic step, guarded by its thread's program counter and the recording lock, so
 a sequence of calls is an arbitrary interleaving. `Valid` is kept by every step, and
 `TimeLaw` says what it means for the file.

 The lock: a start holds it from the read to the flip to recording, and the receiver
 takes it to find out that nothing records. So it cannot pass a chunk by while another
 thread is starting.
 */
module Recorder {
  import opened Wrappers
  import opened Timeline
  import opened Arith
  import opened GapBook
  import opened Ring

  /** The stream positions `[a, b)`. */
  function Range(a: nat, b: nat): seq<nat>
    requires a <= b
  {
    seq(b - a, i requires 0 <= i => a + i)
  }

  ghost predicate Increasing(src: seq<nat>) {
    forall i, j :: 0 <= i < j < |src| ==> src[i] < src[j]
  }

  /** File sample `i` is at its time: index plus the listed losses is stream time. */
  ghost predicate OnTime(b: GapList, src: seq<nat>, log: seq<LoggedGap>) {
    src != [] && !b.truncated ==>
      forall i :: 0 <= i < |src| ==> i + SumUpTo(b.gaps, i) == Time(log, src[i]) - Time(log, src[0])
  }

  /** The gap list accounts for the file's samples `src` and for everything after them
      up to (not including what was lost right before) stream position `next`. */
  ghost predicate Placed(b: GapList, src: seq<nat>, log: seq<LoggedGap>, next: nat) {
    && GapListOk(b, |src|)
    && Increasing(src)
    && (forall i :: 0 <= i < |src| ==> src[i] < next)
    && (src == [] ==> b.lost == 0)
    && (src != [] ==> |src| + b.lost == TimeBefore(log, next) - Time(log, src[0]))
    && OnTime(b, src, log)
  }

  // ---------- what each step does to the account ----------

  /** Logging gaps at or after `next` changes nothing that was accounted. */
  lemma {:induction false} LoggingKeepsPlaced(b: GapList, src: seq<nat>, log: seq<LoggedGap>, more: seq<LoggedGap>,
                                              next: nat)
    requires Placed(b, src, log, next)
    requires forall i :: 0 <= i < |more| ==> next <= more[i].pos
    ensures Placed(b, src, log + more, next)
  {
    forall p: nat | p <= next
      ensures LossIn(log + more, 0, p) == LossIn(log, 0, p)
    {
      LossConcat(log, more, 0, p);
      LossOutside(more, 0, p);
    }
    assert forall i :: 0 <= i < |src| ==> Time(log + more, src[i]) == Time(log, src[i]);
  }

  /** `gaps` are what the log says about the stretch `[next, next + n)`, except for a loss
      right before the file's first sample. */
  ghost predicate Matches(gaps: seq<Gap>, log: seq<LoggedGap>, next: nat, n: nat, first: nat) {
    forall o :: first <= o <= n ==> LossIn(log, next + first, next + o) == SumOff(gaps, first, o)
  }

  lemma {:induction false} OffSplit(gaps: seq<Gap>, a: int, b: int, c: int)
    requires a <= b <= c
    ensures SumOff(gaps, a, c) == SumOff(gaps, a, b) + SumOff(gaps, b, c)
  {
    if gaps != [] {
      OffSplit(gaps[..|gaps| - 1], a, b, c);
    }
  }

  /** A stretch written to the file with its gaps. */
  lemma {:induction false} WriteKeepsPlaced(b: GapList, src: seq<nat>, log: seq<LoggedGap>, next: nat, n: nat,
                                            gaps: seq<Gap>)
    requires Placed(b, src, log, next) && GapsOk(gaps, n)
    requires Matches(gaps, log, next, n, FirstOff(|src|))
    ensures Placed(AddAll(b, |src|, gaps), src + Range(next, next + n), log, next + n)
  {
    hide SumUpTo, LossIn, SumOff, AddAll, Added, GapListOk;
    var f, b', s' := |src|, AddAll(b, |src|, gaps), src + Range(next, next + n);
    AddAllOk(b, f, gaps, n);
    if n == 0 {
      assert gaps == [] && s' == src;
      NoGaps(b, f);
    } else {
      BookStays(b, f, gaps, n);
      var first := if f == 0 then next else src[0];
      assert s'[0] == first;
      assert LossIn(log, next + FirstOff(f), next + n) == SumOff(gaps, FirstOff(f), n);
      LossSplit(log, 0, next, next + n);
      LossSplit(log, 0, next + 1, next + n);
      assert |s'| + b'.lost == TimeBefore(log, next + n) - Time(log, first);
      if !b'.truncated {
        forall i | 0 <= i < |s'|
          ensures i + SumUpTo(b'.gaps, i) == Time(log, s'[i]) - Time(log, s'[0])
        {
          WrittenOnTime(b, src, log, next, n, gaps, i);
        }
      }
    }
  }

  lemma {:induction false} NoGaps(b: GapList, f: nat)
    ensures AddAll(b, f, []) == b
  {
  }

  lemma {:induction false} BookStays(b: GapList, f: nat, gaps: seq<Gap>, n: nat)
    requires GapListOk(b, f) && GapsOk(gaps, n)
    ensures GapListOk(AddAll(b, f, gaps), f + n)
  {
    AddAllOk(b, f, gaps, n);
    if gaps == [] {
      BookGrows(b, f, f + n);
    }
  }

  lemma {:induction false} WrittenOnTime(b: GapList, src: seq<nat>, log: seq<LoggedGap>, next: nat, n: nat,
                                         gaps: seq<Gap>, i: nat)
    requires Placed(b, src, log, next) && GapsOk(gaps, n)
    requires Matches(gaps, log, next, n, FirstOff(|src|))
    requires !AddAll(b, |src|, gaps).truncated && i < |src| + n
    ensures var s' := src + Range(next, next + n);
      i + SumUpTo(AddAll(b, |src|, gaps).gaps, i) == Time(log, s'[i]) - Time(log, s'[0])
  {
    hide SumUpTo, LossIn, SumOff, AddAll, Added;
    var f := |src|;
    var s' := src + Range(next, next + n);
    AddAllOk(b, f, gaps, n);
    AddAllSums(b, f, gaps, n, i);
    if i >= f {
      var o := i - f;
      assert s'[i] == next + o;
      SumPastAll(b.gaps, f, i);
      assert LossIn(log, next + FirstOff(f), next + (o + 1)) == SumOff(gaps, FirstOff(f), o + 1);
      LossSplit(log, 0, next, next + o + 1);
      LossSplit(log, 0, next + 1, next + o + 1);
      if f == 0 {
        assert s'[0] == next && b.lost == 0 && SumUpTo(b.gaps, f) == 0;
      } else {
        assert s'[0] == src[0];
      }
    } else {
      assert s'[i] == src[i] && s'[0] == src[0];
    }
  }

  /** A stretch `[next, next')` that never reached the file becomes one gap holding its
      own samples and everything lost inside it. */
  lemma {:induction false} LoseKeepsPlaced(b: GapList, src: seq<nat>, log: seq<LoggedGap>, next: nat, next': nat)
    requires Placed(b, src, log, next) && next <= next'
    ensures Placed(Added(b, |src|, next' - next + LossIn(log, next, next'), false), src, log, next')
  {
    hide SumUpTo, LossIn, Added, GapListOk;
    var f, l := |src|, next' - next + LossIn(log, next, next');
    var b' := Added(b, f, l, false);
    AddedOk(b, f, f, l, false);
    LossSplit(log, 0, next, next');
    if src != [] && !b'.truncated {
      forall i | 0 <= i < f
        ensures SumUpTo(b'.gaps, i) == SumUpTo(b.gaps, i)
      {
        AddedSums(b, f, l, false, i);
      }
    }
  }

  // ---------- the pre-roll ----------

  /** `_preroll_gaps`: the logged gaps strictly inside the part of `[start, end)` that was
      written, at file offsets. */
  function PrerollGaps(log: seq<LoggedGap>, start: nat, end: nat, written: nat): seq<Gap> {
    if log == [] then []
    else
      var g := log[|log| - 1];
      PrerollGaps(log[..|log| - 1], start, end, written)
      + (if start < g.pos < end && g.pos - start < written then [Gap(g.pos - start, g.lost)] else [])
  }

  ghost predicate LogInOrder(log: seq<LoggedGap>) {
    forall i, j :: 0 <= i < j < |log| ==> log[i].pos < log[j].pos
  }

  lemma {:induction false} PrerollOk(log: seq<LoggedGap>, start: nat, end: nat, written: nat)
    requires LogInOrder(log)
    ensures GapsOk(PrerollGaps(log, start, end, written), written)
    ensures PrerollBelow(PrerollGaps(log, start, end, written), log, start)
  {
    if log != [] {
      var k := |log| - 1;
      PrerollOk(log[..k], start, end, written);
      var front := PrerollGaps(log[..k], start, end, written);
      forall i | 0 <= i < |front|
        ensures start + front[i].off < log[k].pos
      {
        assert log[k - 1].pos < log[k].pos;
      }
    }
  }

  /** Gaps of a pre-roll: behind its first sample, and at or before the newest one logged. */
  ghost predicate PrerollBelow(g: seq<Gap>, log: seq<LoggedGap>, start: nat) {
    forall i :: 0 <= i < |g| ==> 0 < g[i].off && log != [] && start + g[i].off <= log[|log| - 1].pos
  }

  lemma {:induction false} PrerollSums(log: seq<LoggedGap>, start: nat, end: nat, written: nat, o: nat)
    requires 1 <= o <= written && start + written <= end
    ensures LossIn(log, start + 1, start + o) == SumOff(PrerollGaps(log, start, end, written), 1, o)
  {
    if log != [] {
      var init, g := log[..|log| - 1], log[|log| - 1];
      PrerollSums(init, start, end, written, o);
      if start < g.pos < end && g.pos - start < written {
        SumOffSnoc(PrerollGaps(init, start, end, written), Gap(g.pos - start, g.lost), 1, o);
      } else {
        assert PrerollGaps(log, start, end, written) == PrerollGaps(init, start, end, written);
      }
    }
  }

  lemma {:induction false} PrerollPlaced(log: seq<LoggedGap>, start: nat, end: nat, written: nat)
    requires LogInOrder(log) && start + written <= end
    ensures Placed(AddAll(EmptyGapList, 0, PrerollGaps(log, start, end, written)),
                   Range(start, start + written), log, start + written)
  {
    var g := PrerollGaps(log, start, end, written);
    PrerollOk(log, start, end, written);
    forall o | 1 <= o <= written
      ensures LossIn(log, start + 1, start + o) == SumOff(g, 1, o)
    {
      PrerollSums(log, start, end, written, o);
    }
    assert Placed(EmptyGapList, [], log, start);
    WriteKeepsPlaced(EmptyGapList, [], log, start, written, g);
    assert [] + Range(start, start + written) == Range(start, start + written);
  }

  // ---------- a chunk against the log ----------

  /** The gaps of a chunk from offset `skip` on. */
  function Trim(gaps: seq<Gap>, skip: nat): seq<Gap> {
    if gaps == [] then []
    else
      var g := gaps[|gaps| - 1];
      Trim(gaps[..|gaps| - 1], skip) + (if skip <= g.off then [Gap(g.off - skip, g.lost)] else [])
  }

  lemma {:induction false} TrimOk(gaps: seq<Gap>, skip: nat, n: nat)
    requires GapsOk(gaps, n) && skip <= n
    ensures GapsOk(Trim(gaps, skip), n - skip)
    ensures forall i :: 0 <= i < |Trim(gaps, skip)| ==> gaps != [] && Trim(gaps, skip)[i].off + skip <= gaps[|gaps| - 1].off
  {
    if gaps != [] {
      TrimOk(gaps[..|gaps| - 1], skip, n);
    }
  }

  lemma {:induction false} TrimSums(gaps: seq<Gap>, skip: nat, a: nat, b: nat)
    ensures SumOff(Trim(gaps, skip), a, b) == SumOff(gaps, skip + a, skip + b)
  {
    if gaps != [] {
      var init, g := gaps[..|gaps| - 1], gaps[|gaps| - 1];
      TrimSums(init, skip, a, b);
      if skip <= g.off {
        SumOffSnoc(Trim(init, skip), Gap(g.off - skip, g.lost), a, b);
      } else {
        assert Trim(gaps, skip) == Trim(init, skip);
      }
    }
  }

  lemma {:induction false} TotalIsSum(gaps: seq<Gap>, n: nat)
    requires GapsOk(gaps, n)
    ensures TotalLost(gaps) == SumOff(gaps, 0, n)
  {
    if gaps != [] {
      TotalIsSum(gaps[..|gaps| - 1], n);
    }
  }

  lemma {:induction false} ChunkLoss(gaps: seq<Gap>, log: seq<LoggedGap>, next: nat, n: nat)
    requires GapsOk(gaps, n) && Matches(gaps, log, next, n, 0)
    ensures TotalLost(gaps) == LossIn(log, next, next + n)
  {
    TotalIsSum(gaps, n);
    assert LossIn(log, next + 0, next + n) == SumOff(gaps, 0, n);
  }

  /** The log holds exactly the chunk's own gaps from the chunk's start on. */
  lemma {:induction false} ChunkMatches(before: seq<LoggedGap>, gaps: seq<Gap>, chunkStart: nat, n: nat, skip: nat,
                                        first: nat)
    requires AllBelow(before, chunkStart)
    requires skip <= n
    ensures Matches(Trim(gaps, skip), before + Logged(gaps, chunkStart), chunkStart + skip, n - skip, first)
  {
    hide LossIn, SumOff, Trim, Logged;
    var log := before + Logged(gaps, chunkStart);
    forall o | first <= o <= n - skip
      ensures LossIn(log, chunkStart + skip + first, chunkStart + skip + o) == SumOff(Trim(gaps, skip), first, o)
    {
      var a, b := skip + first, skip + o;
      LossConcat(before, Logged(gaps, chunkStart), chunkStart + a, chunkStart + b);
      LossOutside(before, chunkStart + a, chunkStart + b);
      LoggedSum(gaps, chunkStart, a, b);
      TrimSums(gaps, skip, first, o);
    }
  }

  /** With no sample in the file there is nothing to account, wherever it continues. */
  lemma {:induction false} PlacedAnywhere(b: GapList, log: seq<LoggedGap>, next': nat)
    ensures forall next :: Placed(b, [], log, next) ==> Placed(b, [], log, next')
  {
  }

  lemma {:induction false} OverflowsDoNotMatter(b: GapList, overflows: nat, src: seq<nat>, log: seq<LoggedGap>, next: nat)
    requires Placed(b, src, log, next)
    ensures Placed(b.(overflows := overflows), src, log, next)
  {
  }

  /** How many gaps were logged at stream positions `[a, b)`. */
  function CountIn(log: seq<LoggedGap>, a: int, b: int): nat {
    if log == [] then 0
    else CountIn(log[..|log| - 1], a, b) + (if a <= log[|log| - 1].pos < b then 1 else 0)
  }

  /** It counts the gaps in the stretch. */
  lemma {:induction false} CountIs(log: seq<LoggedGap>, a: int, b: int)
    ensures CountIn(log, a, b) == |set i: nat | i < |log| && a <= log[i].pos < b|
  {
    var inside := set i: nat | i < |log| && a <= log[i].pos < b;
    if log == [] {
      assert inside == {};
    } else {
      CountIs(log[..|log| - 1], a, b);
      InsideOneMore(log, a, b);
    }
  }

  lemma {:induction false} InsideOneMore(log: seq<LoggedGap>, a: int, b: int)
    requires log != []
    ensures var k := |log| - 1;
      |set i: nat | i < |log| && a <= log[i].pos < b|
      == |set i: nat | i < k && a <= log[..k][i].pos < b| + (if a <= log[k].pos < b then 1 else 0)
  {
    var k := |log| - 1;
    var before := set i: nat | i < k && a <= log[..k][i].pos < b;
    var inside := set i: nat | i < |log| && a <= log[i].pos < b;
    assert inside == if a <= log[k].pos < b then before + {k} else before;
  }

  ghost predicate AllBelow(log: seq<LoggedGap>, p: nat) {
    forall i :: 0 <= i < |log| ==> log[i].pos < p
  }

  lemma {:induction false} LogNext(log: seq<LoggedGap>, gaps: seq<Gap>, start: nat, n: nat)
    requires LogInOrder(log) && AllBelow(log, start) && GapsOk(gaps, n)
    ensures LogInOrder(log + Logged(gaps, start))
    ensures AllBelow(log + Logged(gaps, start), start + n)
    ensures forall i :: 0 <= i < |Logged(gaps, start)| ==> start <= Logged(gaps, start)[i].pos
  {
  }

  // ---------- counting the gaps ----------

  /** Every gap of the log lost something. */
  ghost predicate AllLose(log: seq<LoggedGap>) {
    forall i :: 0 <= i < |log| ==> 0 < log[i].lost
  }

  /** The overflow count is that of the gaps behind the file's first sample, up to `next`. */
  ghost predicate Counted(b: GapList, src: seq<nat>, log: seq<LoggedGap>, next: nat) {
    && (src == [] ==> b.overflows == 0)
    && (src != [] && AllLose(log) ==> b.overflows == CountIn(log, src[0] + 1, next))
  }

  lemma {:induction false} CountedIs(b: GapList, src: seq<nat>, log: seq<LoggedGap>, next: nat)
    requires Counted(b, src, log, next) && src != [] && forall i :: 0 <= i < |log| ==> 0 < log[i].lost
    ensures b.overflows == |set i: nat | i < |log| && src[0] + 1 <= log[i].pos < next|
  {
    CountIs(log, src[0] + 1, next);
  }

  /** The same gaps, each counted as one lost sample. */
  function Ones(log: seq<LoggedGap>): (r: seq<LoggedGap>)
    ensures |r| == |log| && forall i :: 0 <= i < |r| ==> r[i] == LoggedGap(log[i].pos, 1)
  {
    seq(|log|, i requires 0 <= i < |log| => LoggedGap(log[i].pos, 1))
  }

  function OnesOff(gaps: seq<Gap>): (r: seq<Gap>)
    ensures |r| == |gaps| && forall i :: 0 <= i < |r| ==> r[i] == Gap(gaps[i].off, 1)
  {
    seq(|gaps|, i requires 0 <= i < |gaps| => Gap(gaps[i].off, 1))
  }

  lemma {:induction false} CountIsLoss(log: seq<LoggedGap>, a: int, b: int)
    ensures CountIn(log, a, b) == LossIn(Ones(log), a, b)
  {
    if log != [] {
      assert Ones(log)[..|log| - 1] == Ones(log[..|log| - 1]);
      CountIsLoss(log[..|log| - 1], a, b);
    }
  }

  lemma {:induction false} CountSplit(log: seq<LoggedGap>, a: int, b: int, c: int)
    requires a <= b <= c
    ensures CountIn(log, a, c) == CountIn(log, a, b) + CountIn(log, b, c)
  {
    if log != [] {
      CountSplit(log[..|log| - 1], a, b, c);
    }
  }

  lemma {:induction false} LoggingKeepsCounted(b: GapList, src: seq<nat>, log: seq<LoggedGap>, more: seq<LoggedGap>,
                                               next: nat)
    requires Counted(b, src, log, next) && forall i :: 0 <= i < |more| ==> next <= more[i].pos
    ensures Counted(b, src, log + more, next)
  {
    hide CountIn, LossIn;
    if src != [] && AllLose(log + more) {
      assert forall i :: 0 <= i < |log| ==> (log + more)[i] == log[i];
      CountIsLoss(log, src[0] + 1, next);
      CountIsLoss(log + more, src[0] + 1, next);
      assert Ones(log + more) == Ones(log) + Ones(more);
      LossConcat(Ones(log), Ones(more), src[0] + 1, next);
      LossOutside(Ones(more), src[0] + 1, next);
    }
  }

  lemma {:induction false} AddedCount(b: GapList, index: nat, lost: nat)
    requires 0 < lost
    ensures Added(b, index, lost, true).overflows == b.overflows + (if index == 0 then 0 else 1)
  {
  }

  lemma {:induction false} AddAllCounts(b: GapList, f: nat, gaps: seq<Gap>, n: nat)
    requires GapsOk(gaps, n) && forall i :: 0 <= i < |gaps| ==> 0 < gaps[i].lost
    ensures AddAll(b, f, gaps).overflows == b.overflows + SumOff(OnesOff(gaps), FirstOff(f), n)
  {
    hide GapListOk, SumUpTo;
    if gaps != [] {
      var init, g := gaps[..|gaps| - 1], gaps[|gaps| - 1];
      AddAllCounts(b, f, init, n);
      assert OnesOff(gaps)[..|gaps| - 1] == OnesOff(init);
      AddedCount(AddAll(b, f, init), f + g.off, g.lost);
    }
  }

  lemma {:induction false} NoneInNothing(gaps: seq<Gap>)
    requires GapsOk(gaps, 0)
    ensures gaps == []
  {
    assert gaps != [] ==> gaps[0].off < 0;
  }

  /** A stretch written to the file with its gaps. */
  lemma {:induction false} WriteKeepsCounted(b: GapList, src: seq<nat>, log: seq<LoggedGap>, next: nat, n: nat,
                                             gaps: seq<Gap>)
    requires Counted(b, src, log, next) && GapsOk(gaps, n) && (src != [] ==> src[0] < next)
    requires Matches(OnesOff(gaps), Ones(log), next, n, FirstOff(|src|))
    requires AllLose(log) ==> forall i :: 0 <= i < |gaps| ==> 0 < gaps[i].lost
    ensures Counted(AddAll(b, |src|, gaps), src + Range(next, next + n), log, next + n)
  {
    hide CountIn, LossIn, SumOff, AddAll;
    var f, s' := |src|, src + Range(next, next + n);
    if n == 0 {
      NoneInNothing(gaps);
      assert s' == src;
      NoGaps(b, f);
    } else if AllLose(log) {
      AddAllCounts(b, f, gaps, n);
      if f == 0 {
        assert s'[0] == next;
      } else {
        assert s'[0] == src[0];
      }
      CountIsLoss(log, next + FirstOff(f), next + n);
      assert LossIn(Ones(log), next + FirstOff(f), next + n) == SumOff(OnesOff(gaps), FirstOff(f), n);
      if f != 0 {
        CountSplit(log, src[0] + 1, next, next + n);
      }
    }
  }

  /** A stretch that never reached the file. */
  lemma {:induction false} LoseKeepsCounted(b: GapList, src: seq<nat>, log: seq<LoggedGap>, next: nat, next': nat,
                                            b': GapList)
    requires Counted(b, src, log, next) && next <= next' && (src != [] ==> src[0] < next)
    requires src == [] ==> b'.overflows == b.overflows
    requires src != [] && AllLose(log) ==> b'.overflows == b.overflows + CountIn(log, next, next')
    ensures Counted(b', src, log, next')
  {
    hide CountIn;
    if src != [] {
      CountSplit(log, src[0] + 1, next, next');
    }
  }

  /** What a chunk's log says about the gaps from offset `skip` on, counted. */
  lemma {:induction false} ChunkCounts(before: seq<LoggedGap>, gaps: seq<Gap>, chunkStart: nat, n: nat, skip: nat,
                                       first: nat)
    requires AllBelow(before, chunkStart) && skip <= n
    ensures Matches(OnesOff(Trim(gaps, skip)), Ones(before + Logged(gaps, chunkStart)), chunkStart + skip, n - skip, first)
  {
    hide Trim, Matches;
    TrimOnes(gaps, skip);
    assert Ones(before + Logged(gaps, chunkStart)) == Ones(before) + Logged(OnesOff(gaps), chunkStart);
    ChunkMatches(Ones(before), OnesOff(gaps), chunkStart, n, skip, first);
  }

  lemma {:induction false} TrimOnes(gaps: seq<Gap>, skip: nat)
    ensures OnesOff(Trim(gaps, skip)) == Trim(OnesOff(gaps), skip)
  {
    if gaps != [] {
      var init, g := gaps[..|gaps| - 1], gaps[|gaps| - 1];
      TrimOnes(init, skip);
      assert OnesOff(gaps)[..|gaps| - 1] == OnesOff(init);
      assert OnesOff(gaps)[|gaps| - 1] == Gap(g.off, 1);
    }
  }

  lemma {:induction false} TrimLoses(gaps: seq<Gap>, skip: nat)
    requires forall i :: 0 <= i < |gaps| ==> 0 < gaps[i].lost
    ensures forall i :: 0 <= i < |Trim(gaps, skip)| ==> 0 < Trim(gaps, skip)[i].lost
  {
    if gaps != [] {
      TrimLoses(gaps[..|gaps| - 1], skip);
    }
  }

  lemma {:induction false} PrerollOnes(log: seq<LoggedGap>, start: nat, end: nat, written: nat)
    ensures OnesOff(PrerollGaps(log, start, end, written)) == PrerollGaps(Ones(log), start, end, written)
  {
    if log != [] {
      var init := log[..|log| - 1];
      PrerollOnes(init, start, end, written);
      assert Ones(log)[..|log| - 1] == Ones(init);
      assert Ones(log)[|log| - 1] == LoggedGap(log[|log| - 1].pos, 1);
    }
  }

  lemma {:induction false} PrerollLoses(log: seq<LoggedGap>, start: nat, end: nat, written: nat)
    requires AllLose(log)
    ensures forall i :: 0 <= i < |PrerollGaps(log, start, end, written)| ==> 0 < PrerollGaps(log, start, end, written)[i].lost
  {
    if log != [] {
      PrerollLoses(log[..|log| - 1], start, end, written);
    }
  }

  lemma {:induction false} PrerollCounted(log: seq<LoggedGap>, start: nat, end: nat, written: nat)
    requires LogInOrder(log) && start + written <= end
    ensures Counted(AddAll(EmptyGapList, 0, PrerollGaps(log, start, end, written)),
                    Range(start, start + written), log, start + written)
  {
    hide PrerollGaps;
    var g := PrerollGaps(log, start, end, written);
    PrerollOk(log, start, end, written);
    PrerollOnes(log, start, end, written);
    if AllLose(log) {
      PrerollLoses(log, start, end, written);
    }
    forall o | 1 <= o <= written
      ensures LossIn(Ones(log), start + 1, start + o) == SumOff(OnesOff(g), 1, o)
    {
      PrerollSums(Ones(log), start, end, written, o);
    }
    assert Counted(EmptyGapList, [], log, start);
    WriteKeepsCounted(EmptyGapList, [], log, start, written, g);
    assert [] + Range(start, start + written) == Range(start, start + written);
  }

  /** All of a chunk's gaps lie inside it. */
  lemma {:induction false} AllOnes(gaps: seq<Gap>, n: nat)
    requires GapsOk(gaps, n)
    ensures SumOff(OnesOff(gaps), 0, n) == |gaps|
  {
    if gaps != [] {
      AllOnes(gaps[..|gaps| - 1], n);
      assert OnesOff(gaps)[..|gaps| - 1] == OnesOff(gaps[..|gaps| - 1]);
    }
  }

  lemma {:induction false} ChunkCount(gaps: seq<Gap>, log: seq<LoggedGap>, next: nat, n: nat)
    requires GapsOk(gaps, n) && Matches(OnesOff(gaps), Ones(log), next, n, 0)
    ensures |gaps| == CountIn(log, next, next + n)
  {
    AllOnes(gaps, n);
    CountIsLoss(log, next, next + n);
    assert LossIn(Ones(log), next + 0, next + n) == SumOff(OnesOff(gaps), 0, n);
  }

  /** The file holds the stream samples at positions `src`. */
  ghost predicate Holds<T>(file: seq<T>, src: seq<nat>, history: seq<T>) {
    |src| == |file| && forall i :: 0 <= i < |src| ==> src[i] < |history| && file[i] == history[src[i]]
  }

  lemma {:induction false} HoldsMore<T>(file: seq<T>, src: seq<nat>, history: seq<T>, more: seq<T>)
    requires Holds(file, src, history)
    ensures Holds(file, src, history + more)
  {
  }

  lemma {:induction false} HoldsLonger<T>(file: seq<T>, src: seq<nat>, history: seq<T>, a: nat, b: nat)
    requires Holds(file, src, history) && a <= b <= |history|
    ensures Holds(file + history[a..b], src + Range(a, b), history)
  {
  }

  // ---------- the two threads ----------

  /** Where the receiver is with its current chunk. */
  datatype ReceiverStep = Waiting | GapsLogged | Written

  /** Where a recording is: nothing, pre-roll read, pre-roll placed, running. */
  datatype Phase = Idle | Reading | Mapped | Recording

  /** Slots of the disk writer's queue, which every recording starts with a new one. */
  const QUEUE_SLOTS: nat := 64

  /** The first non-empty chunk that came to an empty file: its new samples, and how many
      entries the disk queue held. */
  datatype Head = Head(len: nat, queued: nat)

  class StreamRecorder<T(0)> {
    const ring: CircularBuffer<T>
    /** Receive gaps at stream positions, logged before their chunk's ring write. */
    var streamGaps: seq<LoggedGap>

    var step: ReceiverStep
    var chunk: seq<T>
    var chunkGaps: seq<Gap>
    var chunkStart: nat

    var phase: Phase
    /** Samples the RAM buffer holds, or None when recording to disk. */
    const ramSamples: Option<nat>
    var file: seq<T>
    var book: GapList
    var dropped: nat
    var nextPos: Option<nat>
    var startSample: Option<nat>
    var preData: seq<T>
    var preStart: nat
    /** The start runs on the receiver thread, between a chunk's ring write and its record. */
    var own: bool
    /** Entries in the disk writer's queue: samples and PSD rows. */
    var queued: nat

    ghost var logBefore: seq<LoggedGap>
    /** The stream position of each file sample, and the first one not accounted yet. */
    ghost var src: seq<nat>
    ghost var next: nat
    /** What came to the file while it was empty: the first non-empty chunk, and the empty
        ones before it. */
    ghost var head: Option<Head>
    ghost var empties: nat

    ghost predicate ReceiverOk()
      reads `streamGaps, `step, `chunk, `chunkGaps, `chunkStart, `logBefore, ring
    {
      && LogInOrder(streamGaps)
      && match step
         case Waiting => AllBelow(streamGaps, |ring.history|)
         case GapsLogged => ChunkLogged() && chunkStart == |ring.history|
         case Written => ChunkLogged() && chunkStart + |chunk| == |ring.history|
                         && ring.history[chunkStart..] == chunk
    }

    ghost predicate ChunkLogged()
      reads `streamGaps, `chunk, `chunkGaps, `chunkStart, `logBefore
    {
      && GapsOk(chunkGaps, |chunk|)
      && streamGaps == logBefore + Logged(chunkGaps, chunkStart)
      && AllBelow(logBefore, chunkStart)
      && AllBelow(streamGaps, chunkStart + |chunk|)
    }

    ghost predicate FileOk()
      reads `streamGaps, `file, `src, `book, `next, ring
    {
      && next <= |ring.history| && |src| == |file|
      && Holds(file, src, ring.history)
      && Placed(book, src, streamGaps, next)
      && Counted(book, src, streamGaps, next)
    }

    /** The chunk fits: the RAM buffer's test on an empty file, or the disk queue's. */
    ghost predicate Fits(h: Head) {
      if ramSamples.Some? then h.len <= ramSamples.value else h.queued < QUEUE_SLOTS
    }

    /** What the recording says of its first stream sample. */
    ghost predicate StartOk()
      reads `nextPos, `startSample, `file, `src, `next, `head
    {
      && (nextPos.Some? ==> nextPos.value == next && startSample.Some?)
      && (nextPos == None ==> file == [] && startSample == None && head == None)
      && (file == [] && startSample.Some? ==>
            startSample.value <= next
            && (head == None ==> startSample.value == next)
            && (head.Some? ==> startSample.value < next && !Fits(head.value)))
      && (file != [] ==> |src| == |file| && (startSample == Some(src[0]) <==> head == None || Fits(head.value)))
    }

    /** The stream up to here has been through the receiver's record step. */
    ghost function Processed(): nat
      reads `step, `chunkStart, ring`history
    {
      if step == Written then chunkStart else |ring.history|
    }

    /** Nothing was passed by while the file is empty, and then the disk queue holds no more
        than the empty chunks put into it. */
    ghost predicate HeadOk()
      reads `step, `chunkStart, `file, `nextPos, `head, `empties, `queued, ring`history
    {
      && (file == [] && nextPos.Some? ==> nextPos.value == Processed())
      && (ramSamples.None? && file == [] && head == None ==> queued <= empties)
      && (ramSamples.None? && head.Some? ==> head.value.queued <= empties)
    }

    ghost predicate Valid()
      reads this, ring, ring.buffer
    {
      && ring.Valid()
      && ReceiverOk()
      && queued <= QUEUE_SLOTS
      && (own ==> step == Written && phase in {Reading, Mapped})
      && (phase == Reading ==>
            && file == [] && src == [] && book == EmptyGapList && dropped == 0
            && preStart + |preData| <= |ring.history|
            && Processed() <= preStart + |preData|
            && preData == ring.history[preStart..preStart + |preData|])
      && (phase == Mapped || phase == Recording ==> FileOk())
      && (phase in {Reading, Mapped} ==> head == None && empties == 0)
      && (phase == Mapped ==>
            && src == Range(preStart, preStart + |file|) && next == preStart + |file|
            && (ramSamples.None? && file == [] ==> queued == 0))
      && (phase == Recording ==> StartOk() && HeadOk())
    }

    constructor (ring: CircularBuffer<T>, ramSamples: Option<nat>)
      requires ring.Valid() && ring.history == []
      ensures Valid() && phase == Idle && step == Waiting
      ensures this.ring == ring && this.ramSamples == ramSamples
    {
      this.ring, this.ramSamples := ring, ramSamples;
      streamGaps, step, chunk, chunkGaps, chunkStart := [], Waiting, [], [], 0;
      phase, file, book, dropped, nextPos, startSample := Idle, [], EmptyGapList, 0, None, None;
      preData, preStart := [], 0;
      own, queued := false, 0;
      logBefore, src, next, head, empties := [], [], 0, None, 0;
    }

    // ---------- receiver thread ----------

    /** Log the chunk's receive gaps at stream positions, before the ring write. */
    method LogGaps(c: seq<T>, gaps: seq<Gap>)
      requires Valid() && step == Waiting && GapsOk(gaps, |c|)
      modifies `chunk, `chunkGaps, `chunkStart, `logBefore, `streamGaps, `step
      ensures Valid() && step == GapsLogged && chunk == c && chunkGaps == gaps && chunkStart == |ring.history|
      ensures streamGaps == old(streamGaps) + Logged(gaps, |ring.history|)
    {
      hide CircularBuffer.Valid, Placed, Counted, LossIn, Logged, LogInOrder, AllBelow, GapsOk, Holds, StartOk;
      var start := ring.NextPosition();
      LogNext(streamGaps, gaps, start, |c|);
      if phase == Mapped || phase == Recording {
        LoggingKeepsPlaced(book, src, streamGaps, Logged(gaps, start), next);
        LoggingKeepsCounted(book, src, streamGaps, Logged(gaps, start), next);
      }
      NoteChunk(c, gaps, start);
    }

    method NoteChunk(c: seq<T>, gaps: seq<Gap>, start: nat)
      modifies `chunk, `chunkGaps, `chunkStart, `logBefore, `streamGaps, `step
      ensures chunk == c && chunkGaps == gaps && chunkStart == start && step == GapsLogged
      ensures logBefore == old(streamGaps) && streamGaps == old(streamGaps) + Logged(gaps, start)
    {
      chunk, chunkGaps, chunkStart := c, gaps, start;
      logBefore := streamGaps;
      streamGaps := streamGaps + Logged(gaps, chunkStart);
      step := GapsLogged;
    }

    method RingWrite()
      requires Valid() && step == GapsLogged
      modifies `step, ring, ring.buffer
      ensures Valid() && step == Written && chunkStart == |old(ring.history)|
      ensures ring.history == old(ring.history) + chunk
    {
      hide Placed, Counted, LogInOrder, AllBelow, Logged, GapsOk, Holds;
      if phase == Mapped || phase == Recording {
        HoldsMore(file, src, ring.history, chunk);
      }
      ring.Write(chunk);
      step := Written;
    }

    /** The receiver moves on without recording the chunk: under the lock, nothing records. */
    method SkipChunk()
      requires Valid() && step == Written && phase == Idle
      modifies `step
      ensures Valid() && step == Waiting
    {
      hide CircularBuffer.Valid, FileOk, StartOk, HeadOk, LogInOrder, AllBelow, Logged, GapsOk;
      step := Waiting;
    }

    /** The stretch of the current chunk that the file does not hold yet. */
    ghost function From(): nat
      reads `nextPos, `chunkStart
    {
      if nextPos.Some? && chunkStart < nextPos.value then nextPos.value else chunkStart
    }

    /** Record the chunk: what the file already holds is trimmed, and what never reached
        it becomes one gap. A chunk that does not fit the RAM buffer, or finds the disk
        queue full, is dropped. */
    method RecordChunk()
      requires Valid() && step == Written && phase == Recording
      modifies `step, `book, `next, `nextPos, `head, `empties, `startSample, `file, `src, `dropped, `queued
      ensures Valid() && step == Waiting && phase == Recording
      ensures streamGaps == old(streamGaps)
      ensures old(file) != [] ==> head == old(head) && empties == old(empties)
      ensures var from, end := old(From()), chunkStart + |chunk|;
        if old(nextPos.Some? && chunkStart < nextPos.value) && end <= from then
          file == old(file) && src == old(src) && book == old(book) && nextPos == old(nextPos)
        else
          && nextPos == Some(end)
          && startSample == (if old(startSample) == None then Some(from) else old(startSample))
          && var fits := if ramSamples.Some? then |old(file)| + (end - from) <= ramSamples.value
                         else old(queued) < QUEUE_SLOTS;
             if fits then dropped == old(dropped) && src == old(src) + Range(from, end)
                          && file == old(file) + ring.history[from..end]
                          && queued == old(queued) + (if ramSamples.Some? then 0 else 1)
             else dropped == old(dropped) + 1 && src == old(src) && file == old(file) && queued == old(queued)
    {
      hide CircularBuffer.Valid, ReceiverOk, FileOk, StartOk, HeadOk, HeadCounted, ReadyFor, Matches, Trim, Logged,
           GapsOk, ChunkLogged, Range, LogInOrder, AllBelow;
      ChunkInRing(0);
      var skip := 0;
      if nextPos.Some? && chunkStart < nextPos.value {
        skip := nextPos.value - chunkStart;
      }
      if 0 < skip && |chunk| <= skip {
        ChunkOver(false);
        return; // the whole chunk is already in the file
      }
      TakeChunk(skip);
      ChunkOver(true);
    }

    /** The receiver is done with its chunk. */
    method ChunkOver(taken: bool)
      requires ReceiverOk() && step == Written && StartOk()
      requires if taken then HeadCounted() && nextPos == Some(chunkStart + |chunk|)
               else HeadOk() && nextPos.Some? && chunkStart < nextPos.value
      modifies `step
      ensures ReceiverOk() && step == Waiting && HeadOk()
    {
      AfterChunk();
      step := Waiting;
    }

    method TakeChunk(skip: nat)
      requires ReceiverOk() && step == Written && FileOk() && StartOk() && HeadOk() && queued <= QUEUE_SLOTS
      requires skip == From() - chunkStart && skip <= |chunk|
      modifies `book, `next, `nextPos, `head, `empties, `startSample, `file, `src, `dropped, `queued
      ensures FileOk() && StartOk() && HeadCounted()
      ensures old(file) != [] ==> head == old(head) && empties == old(empties)
      ensures nextPos == Some(chunkStart + |chunk|)
      ensures startSample == if old(startSample) == None then Some(chunkStart + skip) else old(startSample)
      ensures var data := ring.history[chunkStart + skip..chunkStart + |chunk|];
        var fits := if ramSamples.Some? then |old(file)| + |data| <= ramSamples.value else old(queued) < QUEUE_SLOTS;
        if fits then dropped == old(dropped) && src == old(src) + Range(chunkStart + skip, chunkStart + |chunk|)
                     && file == old(file) + data && queued == old(queued) + (if ramSamples.Some? then 0 else 1)
        else dropped == old(dropped) + 1 && src == old(src) && file == old(file) && queued == old(queued)
    {
      hide ReceiverOk, ChunkLogged, FileOk, StartOk, ReadyFor, Matches, Trim, GapsOk, FirstOff, Range, AllLose;
      ChunkInRing(skip);
      MatchChunk(skip, 0);
      MatchChunk(skip, FirstOff(|file|));
      CountChunk(skip, 0);
      CountChunk(skip, FirstOff(|file|));
      CatchUp();
      StoreChunk(chunk[skip..], Trim(chunkGaps, skip), chunkStart + skip);
    }

    lemma {:induction false} ChunkInRing(skip: nat)
      requires ReceiverOk() && step == Written && skip <= |chunk|
      ensures ChunkLogged() && chunkStart + |chunk| == |ring.history|
      ensures chunk[skip..] == ring.history[chunkStart + skip..chunkStart + |chunk|]
    {
    }

    lemma {:induction false} MatchChunk(skip: nat, first: nat)
      requires ChunkLogged() && skip <= |chunk|
      ensures GapsOk(Trim(chunkGaps, skip), |chunk| - skip)
      ensures Matches(Trim(chunkGaps, skip), streamGaps, chunkStart + skip, |chunk| - skip, first)
    {
      TrimOk(chunkGaps, skip, |chunk|);
      ChunkMatches(logBefore, chunkGaps, chunkStart, |chunk|, skip, first);
    }

    lemma {:induction false} CountChunk(skip: nat, first: nat)
      requires ChunkLogged() && skip <= |chunk|
      ensures Matches(OnesOff(Trim(chunkGaps, skip)), Ones(streamGaps), chunkStart + skip, |chunk| - skip, first)
      ensures AllLose(streamGaps) ==>
        forall i :: 0 <= i < |Trim(chunkGaps, skip)| ==> 0 < Trim(chunkGaps, skip)[i].lost
    {
      hide Trim, Matches;
      ChunkCounts(logBefore, chunkGaps, chunkStart, |chunk|, skip, first);
      if AllLose(streamGaps) {
        forall i | 0 <= i < |chunkGaps|
          ensures 0 < chunkGaps[i].lost
        {
          assert streamGaps[|logBefore| + i] == Logged(chunkGaps, chunkStart)[i];
        }
        TrimLoses(chunkGaps, skip);
      }
    }

    /** Bring the account up to the chunk, if it lags behind. */
    method CatchUp()
      requires FileOk() && StartOk() && chunkStart <= |ring.history|
      requires file == [] && nextPos.Some? ==> nextPos.value == chunkStart
      modifies `book, `next, `nextPos
      ensures ReadyFor(if nextPos.Some? && chunkStart < nextPos.value then nextPos.value else chunkStart)
      ensures if nextPos.Some? && chunkStart < nextPos.value then nextPos == old(nextPos)
              else !(old(nextPos).Some? && chunkStart < old(nextPos).value)
      ensures startSample == old(startSample)
    {
      hide Placed, LossIn, Holds;
      if nextPos.Some? && nextPos.value < chunkStart {
        AddMissingStretch();
      } else if nextPos == None {
        PlacedAnywhere(book, streamGaps, chunkStart);
        next := chunkStart;
      }
    }

    /** Account stream `[nextPos, chunkStart)`, which never reached the file, as one gap.
        Gaps logged inside it count as overflows; one at `chunkStart` is the chunk's own. */
    method AddMissingStretch()
      requires FileOk() && StartOk() && file != []
      requires nextPos.Some? && nextPos.value < chunkStart <= |ring.history|
      modifies `book, `next, `nextPos
      ensures FileOk() && StartOk() && next == chunkStart && nextPos == Some(chunkStart)
    {
      hide Placed, Counted, LossIn, Added, AllLose;
      var lostIn := LossIn(streamGaps, nextPos.value, chunkStart);
      FirstBeforeNext(book, src, streamGaps, next);
      AddedCounts(book, |file|, chunkStart - nextPos.value + lostIn);
      LoseKeepsPlaced(book, src, streamGaps, next, chunkStart);
      ghost var was := book;
      book := Added(book, |file|, chunkStart - nextPos.value + lostIn, false);
      if |file| > 0 {
        OverflowsDoNotMatter(book, book.overflows + CountIn(streamGaps, nextPos.value, chunkStart), src, streamGaps, chunkStart);
        book := book.(overflows := book.overflows + CountIn(streamGaps, nextPos.value, chunkStart));
      }
      LoseKeepsCounted(was, src, streamGaps, next, chunkStart, book);
      next, nextPos := chunkStart, Some(chunkStart);
    }

    static lemma {:induction false} FirstBeforeNext(b: GapList, src: seq<nat>, log: seq<LoggedGap>, next: nat)
      requires Placed(b, src, log, next)
      ensures src != [] ==> src[0] < next
    {
    }

    static lemma {:induction false} AddedCounts(b: GapList, index: nat, lost: nat)
      ensures Added(b, index, lost, false).overflows == b.overflows
    {
    }

    /** What a recording knows right before it takes samples from position `start` on. */
    ghost predicate ReadyFor(start: nat)
      reads this, ring
    {
      && FileOk() && next == start
      && (StartOk() || (nextPos == None && file == [] && startSample == None && head == None))
    }

    /** The queue and the empty chunks, while the file is empty. */
    ghost predicate HeadCounted()
      reads `file, `head, `empties, `queued
    {
      && (ramSamples.None? && file == [] && head == None ==> queued <= empties)
      && (ramSamples.None? && head.Some? ==> head.value.queued <= empties)
    }

    /** The test of the source for a chunk of `n` samples. */
    predicate HasRoom(n: nat)
      reads `file, `queued
    {
      if ramSamples.Some? then |file| + n <= ramSamples.value else queued < QUEUE_SLOTS
    }

    /** Notes what comes to an empty file. */
    ghost method NoteHead(n: nat)
      requires HeadCounted()
      modifies `head, `empties
      ensures head == if file == [] && old(head) == None && 0 < n then Some(Head(n, queued)) else old(head)
      ensures empties == old(empties) + (if file == [] && old(head) == None && n == 0 then 1 else 0)
      ensures ramSamples.None? && head.Some? ==> head.value.queued <= empties
      ensures ramSamples.None? && file == [] && head == None ==> queued < empties || n != 0
    {
      if file == [] && head == None {
        if n == 0 {
          empties := empties + 1;
        } else {
          head := Some(Head(n, queued));
        }
      }
    }

    /** Write samples that follow the file's last one, or account them as dropped. */
    method StoreChunk(data: seq<T>, gaps: seq<Gap>, start: nat)
      requires ReadyFor(start) && HeadCounted() && GapsOk(gaps, |data|)
      requires start + |data| <= |ring.history| && data == ring.history[start..start + |data|]
      requires Matches(gaps, streamGaps, start, |data|, FirstOff(|file|))
      requires Matches(gaps, streamGaps, start, |data|, 0)
      requires Matches(OnesOff(gaps), Ones(streamGaps), start, |data|, FirstOff(|file|))
      requires Matches(OnesOff(gaps), Ones(streamGaps), start, |data|, 0)
      requires AllLose(streamGaps) ==> forall i :: 0 <= i < |gaps| ==> 0 < gaps[i].lost
      modifies `book, `next, `nextPos, `head, `empties, `startSample, `file, `src, `dropped, `queued
      ensures FileOk() && StartOk() && HeadCounted()
      ensures old(file) != [] ==> head == old(head) && empties == old(empties)
      ensures nextPos == Some(start + |data|)
      ensures startSample == if old(startSample) == None then Some(start) else old(startSample)
      ensures if old(HasRoom(|data|))
        then dropped == old(dropped) && src == old(src) + Range(start, start + |data|)
             && file == old(file) + data && queued == old(queued) + (if ramSamples.Some? then 0 else 1)
        else dropped == old(dropped) + 1 && src == old(src) && file == old(file) && queued == old(queued)
    {
      hide ReadyFor, FileOk, StartOk, Matches, GapsOk, AllLose;
      if HasRoom(|data|) {
        StoreAccepted(data, gaps, start);
        if ramSamples.None? {
          queued := queued + 1;
        }
      } else {
        StoreDropped(|data|, gaps, start);
      }
    }

    method StoreAccepted(data: seq<T>, gaps: seq<Gap>, start: nat)
      requires ReadyFor(start) && HeadCounted() && HasRoom(|data|) && GapsOk(gaps, |data|)
      requires start + |data| <= |ring.history| && data == ring.history[start..start + |data|]
      requires Matches(gaps, streamGaps, start, |data|, FirstOff(|file|))
      requires Matches(OnesOff(gaps), Ones(streamGaps), start, |data|, FirstOff(|file|))
      requires AllLose(streamGaps) ==> forall i :: 0 <= i < |gaps| ==> 0 < gaps[i].lost
      modifies `book, `next, `nextPos, `head, `empties, `startSample, `file, `src
      ensures FileOk() && StartOk() && nextPos == Some(start + |data|)
      ensures startSample == if old(startSample) == None then Some(start) else old(startSample)
      ensures src == old(src) + Range(start, start + |data|) && file == old(file) + data
      ensures old(file) != [] ==> head == old(head) && empties == old(empties)
      ensures ramSamples.None? && head.Some? ==> head.value.queued <= empties
      ensures ramSamples.None? && file == [] && head == None ==> queued < empties
    {
      hide Placed, Counted, Added, AddAll, GapsOk, Holds, Matches, AllLose;
      FirstBeforeNext(book, src, streamGaps, next);
      WriteKeepsPlaced(book, src, streamGaps, start, |data|, gaps);
      WriteKeepsCounted(book, src, streamGaps, start, |data|, gaps);
      HoldsLonger(file, src, ring.history, start, start + |data|);
      NoteHead(|data|);
      book := AddAllGaps(book, |file|, gaps);
      PutSamples(data, start);
    }

    /** The samples themselves, and where the next ones go. */
    method PutSamples(data: seq<T>, start: nat)
      modifies `file, `src, `next, `nextPos, `startSample
      ensures file == old(file) + data && src == old(src) + Range(start, start + |data|)
      ensures next == start + |data| && nextPos == Some(start + |data|)
      ensures startSample == if old(startSample) == None then Some(start) else old(startSample)
    {
      file, src := file + data, src + Range(start, start + |data|);
      next, nextPos := start + |data|, Some(start + |data|);
      if startSample == None {
        startSample := Some(start);
      }
    }

    /** A chunk that never reached the file is one gap at the file's end. */
    method StoreDropped(n: nat, gaps: seq<Gap>, start: nat)
      requires ReadyFor(start) && HeadCounted() && !HasRoom(n) && GapsOk(gaps, n) && start + n <= |ring.history|
      requires Matches(gaps, streamGaps, start, n, 0) && Matches(OnesOff(gaps), Ones(streamGaps), start, n, 0)
      modifies `book, `next, `nextPos, `head, `empties, `startSample, `dropped
      ensures FileOk() && StartOk() && HeadCounted()
      ensures nextPos == Some(start + n) && dropped == old(dropped) + 1
      ensures startSample == if old(startSample) == None then Some(start) else old(startSample)
      ensures file != [] ==> head == old(head) && empties == old(empties)
    {
      hide Placed, Counted, Added, GapsOk, Holds, Matches, LossIn, TotalLost, CountIn, AllLose;
      ChunkLoss(gaps, streamGaps, start, n);
      ChunkCount(gaps, streamGaps, start, n);
      FirstBeforeNext(book, src, streamGaps, next);
      AddedCounts(book, |file|, n + TotalLost(gaps));
      LoseKeepsPlaced(book, src, streamGaps, start, start + n);
      var b := Added(book, |file|, n + TotalLost(gaps), false);
      var overflows := b.overflows + (if |file| > 0 then |gaps| else 0);
      OverflowsDoNotMatter(b, overflows, src, streamGaps, start + n);
      LoseKeepsCounted(book, src, streamGaps, start, start + n, b.(overflows := overflows));
      NoteHead(n);
      book := b.(overflows := overflows);
      PassBy(n, start);
    }

    /** Where the next samples go after a drop. */
    method PassBy(n: nat, start: nat)
      modifies `dropped, `next, `nextPos, `startSample
      ensures dropped == old(dropped) + 1 && next == start + n && nextPos == Some(start + n)
      ensures startSample == if old(startSample) == None then Some(start) else old(startSample)
    {
      dropped := dropped + 1;
      next, nextPos := start + n, Some(start + n);
      if startSample == None {
        startSample := Some(start);
      }
    }

    method AddAllGaps(b: GapList, f: nat, gaps: seq<Gap>) returns (b': GapList)
      ensures b' == AddAll(b, f, gaps)
    {
      b' := b;
      for k := 0 to |gaps|
        invariant b' == AddAll(b, f, gaps[..k])
      {
        assert gaps[..k + 1][..k] == gaps[..k];
        b' := Added(b', f + gaps[k].off, gaps[k].lost, true);
      }
      assert gaps[..|gaps|] == gaps;
    }

    // ---------- a start, on either thread ----------

    /** Reset the recording and read the newest `n` ring samples as pre-roll, on the receiver
        thread (`mine`, after a chunk's ring write) or on another one. */
    method StartRead(n: int, mine: bool)
      requires Valid() && phase == Idle && (mine ==> step == Written)
      modifies `preData, `preStart, `file, `book, `dropped, `nextPos, `startSample,
               `src, `head, `empties, `phase, `own
      ensures Valid() && phase == Reading && own == mine
      ensures preStart + |preData| == |ring.history| && preData == ring.history[preStart..]
      ensures |preData| == if n <= 0 then 0 else MinInt(n, MinInt(|ring.history|, ring.buffer.Length))
    {
      hide CircularBuffer.Valid, ReceiverOk, FileOk, StartOk, HeadOk;
      ProcessedFits();
      var data, end := ring.ReadTailWithPosition(n);
      ResetRecording();
      KeepPreroll(data, end - |data|, mine);
    }

    method KeepPreroll(data: seq<T>, start: nat, mine: bool)
      modifies `preData, `preStart, `own, `phase
      ensures preData == data && preStart == start && own == mine && phase == Reading
    {
      preData, preStart, own, phase := data, start, mine, Reading;
    }

    lemma {:induction false} ProcessedFits()
      requires ReceiverOk()
      ensures Processed() <= |ring.history|
    {
    }

    method ResetRecording()
      modifies `file, `book, `dropped, `nextPos, `startSample, `src, `head, `empties
      ensures file == [] && book == EmptyGapList && dropped == 0 && nextPos == None && startSample == None
      ensures src == [] && head == None && empties == 0
    {
      file, book, dropped, nextPos, startSample := [], EmptyGapList, 0, None, None;
      src, head, empties := [], None, 0;
    }

    /**
     Put the pre-roll into the file and map the logged gaps into it. `grids` holds the
     position of the last row of each buffered PSD grid; a chunk's grid exists only once the
     chunk went through the record step. The ones with rows in the pre-roll are queued too.
     */
    method StartMap(grids: seq<nat>)
      requires Valid() && phase == Reading
      requires forall i :: 0 <= i < |grids| ==> grids[i] < Processed()
      modifies `file, `book, `src, `next, `phase, `queued
      ensures Valid() && phase == Mapped && src == Range(preStart, preStart + |file|)
      ensures file <= preData
      ensures ramSamples.None? || |preData| <= ramSamples.value ==> file == preData
      ensures ramSamples.Some? && ramSamples.value < |preData| ==> |file| == ramSamples.value
      ensures queued == if ramSamples.Some? then old(queued)
        else MinInt(QUEUE_SLOTS, (if preData == [] then 0 else 1) + |set i: nat | i < |grids| && preStart <= grids[i]|)
    {
      hide CircularBuffer.Valid, FileOk, ReceiverOk, GapsOk;
      LogIsInOrder();
      PlacePreroll(if ramSamples.Some? then MinInt(|preData|, ramSamples.value) else |preData|);
      if ramSamples.None? {
        QueuePreroll(grids);
      }
      phase := Mapped;
    }

    lemma {:induction false} LogIsInOrder()
      requires ReceiverOk()
      ensures LogInOrder(streamGaps)
    {
    }

    /** The new queue of a disk recording: the pre-roll, then its PSD grids while they fit. */
    method QueuePreroll(grids: seq<nat>)
      modifies `queued
      ensures queued == MinInt(QUEUE_SLOTS,
                               (if preData == [] then 0 else 1) + |set i: nat | i < |grids| && preStart <= grids[i]|)
      ensures preData == [] && (forall i :: 0 <= i < |grids| ==> grids[i] < preStart) ==> queued == 0
    {
      queued := if |preData| > 0 then 1 else 0;
      ghost var first, taken := queued, {};
      for i := 0 to |grids|
        invariant taken == set j: nat | j < i && preStart <= grids[j]
        invariant queued == MinInt(QUEUE_SLOTS, first + |taken|)
        invariant (forall j :: 0 <= j < |grids| ==> grids[j] < preStart) ==> taken == {}
      {
        if grids[i] >= preStart {
          taken := taken + {i};
          if queued < QUEUE_SLOTS {
            queued := queued + 1;
          }
        }
      }
    }

    method PlacePreroll(written: nat)
      requires LogInOrder(streamGaps) && written <= |preData|
      requires preStart + |preData| <= |ring.history|
      requires preData == ring.history[preStart..preStart + |preData|]
      modifies `file, `book, `src, `next
      ensures FileOk() && file == preData[..written]
      ensures src == Range(preStart, preStart + |file|) && next == preStart + |file|
    {
      hide Placed, Counted, AddAll, PrerollGaps, LogInOrder;
      PrerollCounted(streamGaps, preStart, preStart + |preData|, written);
      PrerollPlaced(streamGaps, preStart, preStart + |preData|, written);
      var b := AddAllGaps(EmptyGapList, 0, PrerollGaps(streamGaps, preStart, preStart + |preData|, written));
      book := b;
      file, src := preData[..written], Range(preStart, preStart + written);
      next := preStart + written;
    }

    /** Anchor the recording in the stream and begin. A start on the receiver thread leaves
        its chunk alone: the pre-roll was read after the chunk's ring write. */
    method StartRecording()
      requires Valid() && phase == Mapped
      modifies `nextPos, `startSample, `phase, `own, `step
      ensures Valid() && phase == Recording && !own
      ensures step == if old(own) then Waiting else old(step)
      ensures nextPos == if file == [] then None else Some(preStart + |file|)
      ensures startSample == if file == [] then None else Some(preStart)
    {
      hide CircularBuffer.Valid, FileOk, ReceiverOk, StartOk, HeadOk;
      Anchored();
      Anchor();
      LeaveStart();
      phase := Recording;
    }

    lemma {:induction false} Anchored()
      requires FileOk()
      ensures |src| == |file|
    {
    }

    /** Where the file continues in the stream, and where it starts. */
    method Anchor()
      requires head == None && |src| == |file| && next == preStart + |file|
      requires file != [] ==> src[0] == preStart
      requires ramSamples.None? && file == [] ==> queued == 0
      modifies `nextPos, `startSample
      ensures StartOk() && HeadOk()
      ensures nextPos == if file == [] then None else Some(preStart + |file|)
      ensures startSample == if file == [] then None else Some(preStart)
    {
      nextPos := if |file| > 0 then Some(preStart + |file|) else None;
      startSample := if |file| > 0 then Some(preStart) else None;
    }

    method LeaveStart()
      requires ReceiverOk() && (own ==> step == Written)
      requires HeadOk() && (file == [] ==> nextPos == None)
      modifies `own, `step
      ensures ReceiverOk() && HeadOk() && !own && step == if old(own) then Waiting else old(step)
    {
      if own {
        AfterChunk();
        step := Waiting;
        own := false;
      }
    }

    /** After a written chunk every logged gap lies below what was written. */
    lemma {:induction false} AfterChunk()
      requires ReceiverOk() && step == Written
      ensures LogInOrder(streamGaps) && AllBelow(streamGaps, |ring.history|)
    {
    }

    method StopRecording()
      requires Valid() && phase == Recording
      modifies `phase
      ensures Valid() && phase == Idle
    {
      hide CircularBuffer.Valid, ReceiverOk, FileOk, StartOk, HeadOk;
      phase := Idle;
    }

    // ---------- the disk queue's other users ----------

    /** The writer thread takes an entry. */
    method WriterTake()
      requires Valid() && 0 < queued
      modifies `queued
      ensures Valid() && queued == old(queued) - 1
    {
      hide CircularBuffer.Valid, ReceiverOk, FileOk, StartOk;
      queued := queued - 1;
    }

    /** PSD rows of a chunk that went through the record step, from `row` on, which is at or
        after the noted start: queued when they fit. */
    method PutGrid(row: nat)
      requires Valid() && phase == Recording && ramSamples.None? && startSample.Some?
      requires startSample.value <= row < Processed()
      modifies `queued
      ensures Valid() && queued == if old(queued) < QUEUE_SLOTS then old(queued) + 1 else old(queued)
    {
      hide CircularBuffer.Valid, ReceiverOk, FileOk;
      if queued < QUEUE_SLOTS {
        queued := queued + 1;
      }
    }

    // ---------- what a recording promises ----------

    /** In any interleaving: no stream sample is in the file twice, each sample is the
        stream's, and file index plus the gaps listed at or before it is the sample's
        time after the file's first sample. `lost` is what is missing in all. */
    lemma {:induction false} TimeLaw()
      requires Valid() && phase == Recording && file != []
      ensures |src| == |file| && Increasing(src)
      ensures forall i :: 0 <= i < |file| ==> src[i] < |ring.history| && file[i] == ring.history[src[i]]
      ensures !book.truncated ==>
        forall i :: 0 <= i < |file| ==>
          i + SumUpTo(book.gaps, i) == Time(streamGaps, src[i]) - Time(streamGaps, src[0])
      ensures |file| + book.lost == TimeBefore(streamGaps, next) - Time(streamGaps, src[0])
    {
    }

    /** The gap list is in order, strictly inside the file or at its end, and sums to
        `lost` unless it was truncated. */
    lemma {:induction false} GapListLaw()
      requires Valid() && phase == Recording
      ensures forall j, k :: 0 <= j < k < |book.gaps| ==> book.gaps[j].index < book.gaps[k].index
      ensures forall j :: 0 <= j < |book.gaps| ==> 0 < book.gaps[j].index <= |file|
      ensures !book.truncated ==> SumUpTo(book.gaps, |file|) == book.lost
      ensures book.truncated ==> |book.gaps| == MAX_RECORDED_GAPS
    {
    }

    /** The overflows noted are exactly the receive gaps behind the file's first sample, also
        those inside stretches and chunks that never reached the file: when every gap
        reported lost something. */
    lemma {:induction false} OverflowLaw()
      requires Valid() && phase == Recording && file != []
      requires forall i :: 0 <= i < |streamGaps| ==> 0 < streamGaps[i].lost
      ensures book.overflows == |set i: nat | i < |streamGaps| && src[0] + 1 <= streamGaps[i].pos < next|
    {
      hide CircularBuffer.Valid, ReceiverOk, StartOk, HeadOk, Placed, Counted;
      CountedIs(book, src, streamGaps, next);
    }

    /** The noted start sample is the file's first sample, if and only if the first non-empty
        chunk that came to an empty file fitted: the RAM buffer was as long as the chunk, or the
        disk queue had a slot. (`head` is `None` when a pre-roll was written.) */
    lemma {:induction false} StartSampleLaw()
      requires Valid() && phase == Recording && file != []
      ensures startSample == Some(src[0]) <==>
        head == None || (if ramSamples.Some? then head.value.len <= ramSamples.value else head.value.queued < QUEUE_SLOTS)
    {
    }

    /** On disk it always is, unless as many empty chunks as the queue has slots came before:
        nothing else can be queued before the first sample. */
    lemma {:induction false} DiskStartLaw()
      requires Valid() && phase == Recording && file != [] && ramSamples.None?
      requires empties < QUEUE_SLOTS
      ensures startSample == Some(src[0])
    {
    }
  }

  /** The noted start can be wrong: no pre-roll, a RAM buffer shorter than the first chunk, and
      a shorter second chunk. The recording notes the first chunk, which is not in the file. */
  method DroppedFirstChunk() returns (r: StreamRecorder<int>)
    ensures r.Valid() && r.phase == Recording && r.ramSamples == Some(1)
    ensures r.src == [2] && r.startSample == Some(0)
  {
    hide CircularBuffer.Valid, StreamRecorder.Valid;
    var ring := new CircularBuffer<int>(8);
    r := new StreamRecorder<int>(ring, Some(1));
    r.StartRead(0, false);
    r.StartMap([]);
    r.StartRecording();
    OneChunk(r, [5, 6]);
    OneChunk(r, [7]);
    assert Range(2, 3) == [2];
  }

  /** It can be wrong on disk: empty chunks fill the queue of a stalled writer, the first
      sample is dropped, the writer takes an entry, and the second sample is written. */
  method EmptyChunksFillTheQueue() returns (r: StreamRecorder<int>)
    ensures r.Valid() && r.phase == Recording && r.ramSamples == None
    ensures r.src == [1] && r.startSample == Some(0)
  {
    hide CircularBuffer.Valid, StreamRecorder.Valid;
    var ring := new CircularBuffer<int>(8);
    r := new StreamRecorder<int>(ring, None);
    r.StartRead(0, false);
    r.StartMap([]);
    r.StartRecording();
    for k: nat := 0 to QUEUE_SLOTS
      invariant r.Valid() && r.phase == Recording && r.step == Waiting
      invariant r.file == [] && r.src == [] && r.ramSamples == None && |r.ring.history| == 0 && r.queued == k
      invariant if k == 0 then r.nextPos == None && r.startSample == None
                else r.nextPos == Some(0) && r.startSample == Some(0)
      invariant fresh(r) && fresh(r.ring) && fresh(r.ring.buffer)
    {
      OneChunk(r, []);
    }
    OneChunk(r, [5]);
    r.WriterTake();
    OneChunk(r, [6]);
    assert Range(1, 2) == [1];
  }

  /** One chunk without gaps, to an empty file. */
  method OneChunk(r: StreamRecorder<int>, chunk: seq<int>)
    requires r.Valid() && r.phase == Recording && r.step == Waiting
    requires r.file == [] && r.nextPos in {None, Some(|r.ring.history|)}
    modifies r, r.ring, r.ring.buffer
    ensures r.Valid() && r.phase == Recording && r.step == Waiting
    ensures |r.ring.history| == old(|r.ring.history|) + |chunk| && r.nextPos == Some(|r.ring.history|)
    ensures r.startSample == if old(r.startSample) == None then Some(old(|r.ring.history|)) else old(r.startSample)
    ensures if old(r.HasRoom(|chunk|))
      then r.src == old(r.src) + Range(old(|r.ring.history|), |r.ring.history|) && |r.file| == |chunk|
           && r.queued == old(r.queued) + (if r.ramSamples.Some? then 0 else 1)
      else r.src == old(r.src) && r.file == [] && r.queued == old(r.queued)
  {
    hide CircularBuffer.Valid, StreamRecorder.Valid;
    r.LogGaps(chunk, []);
    r.RingWrite();
    r.RecordChunk();
  }
}
