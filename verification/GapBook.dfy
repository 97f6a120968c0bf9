/**
 The gap list of one recording (`pipeline/streaming.py`, `_add_recording_gap`), and
 the time of a stream position according to the log of receive gaps.
 */
module GapBook {
  import opened Timeline

  /** At most this many gap entries are kept for a recording. */
  const MAX_RECORDED_GAPS: nat := 1000

  /** `lost` samples are missing from the file right before sample `index`. */
  datatype FileGap = FileGap(index: nat, lost: nat)

  datatype GapList = GapList(gaps: seq<FileGap>, lost: nat, overflows: nat, truncated: bool)

  const EmptyGapList := GapList([], 0, 0, false)

  /** A logged receive gap: `lost` samples are missing right before stream position `pos`. */
  datatype LoggedGap = LoggedGap(pos: nat, lost: nat)

  // ---------- stream time ----------

  /** Everything logged as lost at stream positions `[a, b)`. */
  function LossIn(log: seq<LoggedGap>, a: int, b: int): nat {
    if log == [] then 0
    else
      var g := log[|log| - 1];
      LossIn(log[..|log| - 1], a, b) + (if a <= g.pos < b then g.lost else 0)
  }

  /** Time of stream position `p`, and time right before the losses at `p`. */
  function Time(log: seq<LoggedGap>, p: nat): nat {
    p + LossIn(log, 0, p + 1)
  }

  function TimeBefore(log: seq<LoggedGap>, p: nat): nat {
    p + LossIn(log, 0, p)
  }

  lemma {:induction false} LossSplit(log: seq<LoggedGap>, a: int, b: int, c: int)
    requires a <= b <= c
    ensures LossIn(log, a, c) == LossIn(log, a, b) + LossIn(log, b, c)
  {
    if log != [] {
      LossSplit(log[..|log| - 1], a, b, c);
    }
  }

  lemma {:induction false} LossConcat(log: seq<LoggedGap>, more: seq<LoggedGap>, a: int, b: int)
    ensures LossIn(log + more, a, b) == LossIn(log, a, b) + LossIn(more, a, b)
    decreases |more|
  {
    if more == [] {
      assert log + more == log;
    } else {
      LossConcat(log, more[..|more| - 1], a, b);
      assert (log + more)[..|log + more| - 1] == log + more[..|more| - 1];
    }
  }

  lemma {:induction false} LossOutside(log: seq<LoggedGap>, a: int, b: int)
    requires forall i :: 0 <= i < |log| ==> log[i].pos < a || b <= log[i].pos
    ensures LossIn(log, a, b) == 0
  {
    if log != [] {
      LossOutside(log[..|log| - 1], a, b);
    }
  }

  /** A chunk's receive gaps at stream positions. */
  function Logged(gaps: seq<Gap>, chunkStart: nat): seq<LoggedGap> {
    seq(|gaps|, i requires 0 <= i < |gaps| => LoggedGap(chunkStart + gaps[i].off, gaps[i].lost))
  }

  /** What a chunk's gaps lose at offsets `[lo, hi)`. */
  function SumOff(gaps: seq<Gap>, lo: int, hi: int): nat {
    if gaps == [] then 0
    else
      var g := gaps[|gaps| - 1];
      SumOff(gaps[..|gaps| - 1], lo, hi) + (if lo <= g.off < hi then g.lost else 0)
  }

  lemma {:induction false} SumOffSnoc(gaps: seq<Gap>, g: Gap, lo: int, hi: int)
    ensures SumOff(gaps + [g], lo, hi) == SumOff(gaps, lo, hi) + (if lo <= g.off < hi then g.lost else 0)
  {
    assert (gaps + [g])[..|gaps|] == gaps;
  }

  lemma {:induction false} LoggedSum(gaps: seq<Gap>, chunkStart: nat, a: nat, b: nat)
    ensures LossIn(Logged(gaps, chunkStart), chunkStart + a, chunkStart + b) == SumOff(gaps, a, b)
  {
    if gaps != [] {
      var init := gaps[..|gaps| - 1];
      assert Logged(gaps, chunkStart)[..|gaps| - 1] == Logged(init, chunkStart);
      LoggedSum(init, chunkStart, a, b);
    }
  }

  // ---------- the gap list ----------

  /** `_add_recording_gap`: gaps at one index merge; past the limit only the total grows. */
  function Added(b: GapList, index: nat, lost: nat, overflow: bool): GapList {
    if index == 0 || lost == 0 then b
    else
      var b' := b.(lost := b.lost + lost, overflows := b.overflows + (if overflow then 1 else 0));
      var k := |b.gaps| - 1;
      if 0 <= k && b.gaps[k].index == index then
        b'.(gaps := b.gaps[..k] + [FileGap(index, b.gaps[k].lost + lost)])
      else if |b.gaps| < MAX_RECORDED_GAPS then b'.(gaps := b.gaps + [FileGap(index, lost)])
      else b'.(truncated := true)
  }

  /** What the entries at or before file index `i` lose. */
  function SumUpTo(gaps: seq<FileGap>, i: int): nat {
    if gaps == [] then 0
    else
      var g := gaps[|gaps| - 1];
      SumUpTo(gaps[..|gaps| - 1], i) + (if g.index <= i then g.lost else 0)
  }

  /** Entries are in order inside the file; unless truncated (the list is full), they
      sum to `lost`. */
  ghost predicate GapListOk(b: GapList, fileLen: nat) {
    && (forall j, k :: 0 <= j < k < |b.gaps| ==> b.gaps[j].index < b.gaps[k].index)
    && (forall j :: 0 <= j < |b.gaps| ==> 0 < b.gaps[j].index <= fileLen && 0 < b.gaps[j].lost)
    && (!b.truncated ==> SumUpTo(b.gaps, fileLen) == b.lost)
    && (b.lost == 0 ==> b.gaps == [])
    && |b.gaps| <= MAX_RECORDED_GAPS
    && (b.truncated ==> |b.gaps| == MAX_RECORDED_GAPS)
  }

  lemma {:induction false} SumPastAll(gaps: seq<FileGap>, i: nat, j: nat)
    requires forall k :: 0 <= k < |gaps| ==> gaps[k].index <= i
    requires i <= j
    ensures SumUpTo(gaps, j) == SumUpTo(gaps, i)
  {
    if gaps != [] {
      SumPastAll(gaps[..|gaps| - 1], i, j);
    }
  }

  lemma {:induction false} SumSnoc(gaps: seq<FileGap>, g: FileGap, i: int)
    ensures SumUpTo(gaps + [g], i) == SumUpTo(gaps, i) + (if g.index <= i then g.lost else 0)
  {
    assert (gaps + [g])[..|gaps|] == gaps;
  }

  /** One more gap at or after every earlier one changes the sums from its index on. */
  lemma {:induction false} AddedSums(b: GapList, index: nat, lost: nat, overflow: bool, i: int)
    requires !Added(b, index, lost, overflow).truncated
    ensures SumUpTo(Added(b, index, lost, overflow).gaps, i)
         == SumUpTo(b.gaps, i) + (if 0 < index <= i then lost else 0)
  {
    var k := |b.gaps| - 1;
    if index == 0 || lost == 0 {
    } else if 0 <= k && b.gaps[k].index == index {
      SumSnoc(b.gaps[..k], FileGap(index, b.gaps[k].lost + lost), i);
    } else {
      SumSnoc(b.gaps, FileGap(index, lost), i);
    }
  }

  lemma {:induction false} AddedOk(b: GapList, fileLen: nat, index: nat, lost: nat, overflow: bool)
    requires GapListOk(b, fileLen) && fileLen <= index
    ensures GapListOk(Added(b, index, lost, overflow), index)
    ensures Added(b, index, lost, overflow).lost == b.lost + (if index == 0 then 0 else lost)
    ensures b.truncated ==> Added(b, index, lost, overflow).truncated
  {
    hide SumUpTo;
    var b' := Added(b, index, lost, overflow);
    SumPastAll(b.gaps, fileLen, index);
    if !b'.truncated {
      AddedSums(b, index, lost, overflow, index);
    }
  }

  /** A chunk's gaps, at the chunk's place `f` in the file. */
  function AddAll(b: GapList, f: nat, gaps: seq<Gap>): GapList {
    if gaps == [] then b
    else
      var g := gaps[|gaps| - 1];
      Added(AddAll(b, f, gaps[..|gaps| - 1]), f + g.off, g.lost, true)
  }

  /** The first offset whose gap counts: one at the very start of the file does not. */
  function FirstOff(f: nat): nat {
    if f == 0 then 1 else 0
  }

  lemma {:induction false} AddAllOk(b: GapList, f: nat, gaps: seq<Gap>, n: nat)
    requires GapListOk(b, f) && GapsOk(gaps, n)
    ensures var b' := AddAll(b, f, gaps);
      && (b.truncated ==> b'.truncated)
      && b'.lost == b.lost + SumOff(gaps, FirstOff(f), n)
      && GapListOk(b', f + (if gaps == [] then 0 else gaps[|gaps| - 1].off))
      && (gaps != [] ==> GapListOk(b', f + n))
  {
    hide SumUpTo, Added, GapListOk;
    if gaps != [] {
      var init, g := gaps[..|gaps| - 1], gaps[|gaps| - 1];
      AddAllOk(b, f, init, n);
      var b1 := AddAll(b, f, init);
      AddedOk(b1, f + (if init == [] then 0 else init[|init| - 1].off), f + g.off, g.lost, true);
      BookGrows(AddAll(b, f, gaps), f + g.off, f + n);
    }
  }

  lemma {:induction false} BookGrows(b: GapList, f: nat, f': nat)
    requires GapListOk(b, f) && f <= f'
    ensures GapListOk(b, f')
  {
    SumPastAll(b.gaps, f, f');
  }

  /** After a chunk's gaps are added, the sum up to any of its samples is the sum so far
      plus what the chunk lost up to that sample. */
  lemma {:induction false} AddAllSums(b: GapList, f: nat, gaps: seq<Gap>, n: nat, i: nat)
    requires GapListOk(b, f) && GapsOk(gaps, n) && !AddAll(b, f, gaps).truncated
    ensures SumUpTo(AddAll(b, f, gaps).gaps, i)
         == SumUpTo(b.gaps, i) + (if f <= i then SumOff(gaps, FirstOff(f), i - f + 1) else 0)
  {
    hide SumUpTo, Added, GapListOk;
    if gaps != [] {
      var init, g := gaps[..|gaps| - 1], gaps[|gaps| - 1];
      var b1 := AddAll(b, f, init);
      AddAllOk(b, f, init, n);
      AddedOk(b1, f + (if init == [] then 0 else init[|init| - 1].off), f + g.off, g.lost, true);
      AddAllSums(b, f, init, n, i);
      AddedSums(b1, f + g.off, g.lost, true, i);
    }
  }
}
