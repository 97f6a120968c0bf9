/**
 Cutting one scheduled run out of the live stream (`schedules/cutter.py`).

 The receiver feeds every chunk to the cutter. The first chunk that reaches the
 requested instant places the start, possibly reading older samples back from the
 ring; after that the file follows stream positions, with zeros for what was lost.

 `full` is the file as it would be without the length limit. The class invariant
 says that it is a window of the time axis of `view`, the stream as the cutter
 knows it. `TimeLaw` compares it with the true stream.
 */
module Cutter {
  import opened Arith
  import opened CutFile
  import opened Ring
  import opened Rounding
  import opened Timeline
  import opened Wrappers

  datatype RunSpec = RunSpec(startMs: int, nSamples: nat, rateHz: real, centerFreqHz: real)

  datatype Status = Missed | Pending | Recording | Recorded | Partial

  // ---------- windows of the time axis ----------

  /** The axis from time `t` on; before the axis begins there are only losses. */
  function WindowFrom<T>(axis: seq<Cell<T>>, t: int): seq<Cell<T>>
    requires t <= |axis|
  {
    if t >= 0 then axis[t..] else Losts(-t) + axis
  }

  lemma {:induction false} WindowAppend<T>(axis: seq<Cell<T>>, more: seq<Cell<T>>, t: int)
    requires t <= |axis|
    ensures WindowFrom(axis + more, t) == WindowFrom(axis, t) + more
  {
  }

  ghost predicate AllHere<T>(slots: seq<Slot<T>>) {
    forall i :: 0 <= i < |slots| ==> slots[i].v.Some?
  }

  /** Samples of a stream none of whose positions was missed. */
  ghost function Samples<T>(slots: seq<Slot<T>>): seq<T>
    requires AllHere(slots)
  {
    seq(|slots|, i requires 0 <= i < |slots| => slots[i].v.value)
  }

  /** What the cutter knows of the stream: from `base` on, each position's sample
      unless it was missed, and no more loss than there was. */
  ghost predicate Knows<T>(view: seq<Slot<T>>, base: nat, stream: seq<Slot<T>>) {
    && |stream| == base + |view|
    && forall k :: 0 <= k < |view| ==>
         && view[k].lost <= stream[base + k].lost
         && (view[k].v == stream[base + k].v || view[k].v == None)
  }

  // ---------- gap placement ----------

  /** The gaps inside the chunk. */
  function Inner(gaps: seq<Gap>): seq<Gap> {
    if gaps == [] then []
    else if gaps[0].off > 0 then [gaps[0]] + Inner(gaps[1..])
    else Inner(gaps[1..])
  }

  lemma {:induction false} InnerOfInner(gaps: seq<Gap>)
    requires forall i :: 0 <= i < |gaps| ==> 0 < gaps[i].off
    ensures Inner(gaps) == gaps
  {
    if gaps != [] {
      InnerOfInner(gaps[1..]);
    }
  }

  /** Only the first gap can lie before the chunk. */
  lemma {:induction false} InnerIs(gaps: seq<Gap>, n: nat)
    requires GapsOk(gaps, n)
    ensures Inner(gaps) == if gaps != [] && gaps[0].off == 0 then gaps[1..] else gaps
  {
    if gaps != [] {
      var rest := gaps[1..];
      forall i | 0 <= i < |rest|
        ensures 0 < rest[i].off
      {
        assert gaps[0].off < gaps[i + 1].off;
      }
      InnerOfInner(rest);
    }
  }

  lemma {:induction false} InnerOk(gaps: seq<Gap>, n: nat)
    requires GapsOk(gaps, n)
    ensures GapsOk(Inner(gaps), n)
    ensures forall i :: 0 <= i < |Inner(gaps)| ==> 0 < Inner(gaps)[i].off
  {
    hide Inner;
    InnerIs(gaps, n);
  }

  lemma {:induction false} LaidInner<T>(chunk: seq<T>, pos: int, gaps: seq<Gap>)
    requires GapsOk(gaps, |chunk|) && GapsOk(Inner(gaps), |chunk|)
    ensures Laid(chunk, pos, 0, Inner(gaps)) == Laid(chunk, pos, 0, gaps)
  {
    hide Inner;
    InnerIs(gaps, |chunk|);
  }

  lemma {:induction false} LaidLength<T>(chunk: seq<T>, pos: int, start: nat, gaps: seq<Gap>)
    requires start <= |chunk| && GapsOk(gaps, |chunk|)
    requires forall i :: 0 <= i < |gaps| ==> start < gaps[i].off
    ensures |Laid(chunk, pos, start, gaps)| == |chunk| - start + TotalLost(gaps)
    decreases |gaps|
  {
    if gaps != [] {
      TotalLostFirst(gaps);
      LaidLength(chunk, pos, gaps[0].off, gaps[1..]);
    }
  }

  /** The cells from time-sample `target` on are those `target - from - lostBefore`
      cells into the layout from offset `from`, where only `gaps[k..]` lie ahead. */
  ghost predicate PlaceInv<T>(chunk: seq<T>, pos: int, gaps: seq<Gap>, target: nat,
                              k: nat, from: nat, lostBefore: nat)
    requires GapsOk(gaps, |chunk|)
  {
    && k <= |gaps| && from <= |chunk| && from + lostBefore <= target
    && (forall i :: 0 <= i < k ==> gaps[i].off <= from)
    && (forall i :: k <= i < |gaps| ==> from < gaps[i].off)
    && target < |chunk| + lostBefore + TotalLost(gaps[k..])
    && target <= |Laid(chunk, pos, 0, gaps)|
    && target - from - lostBefore <= |Laid(chunk, pos, from, gaps[k..])|
    && Laid(chunk, pos, 0, gaps)[target..] == Laid(chunk, pos, from, gaps[k..])[target - from - lostBefore..]
  }

  /** Where time-sample `target` is in a chunk with gaps inside it: the offset in the
      chunk, and the zeros to write first when it falls inside a gap. */
  method Place<T>(target: nat, gaps: seq<Gap>, n: nat, ghost chunk: seq<T>, ghost pos: int)
    returns (off: nat, head: nat)
    requires n == |chunk| && GapsOk(gaps, n)
    requires forall i :: 0 <= i < |gaps| ==> 0 < gaps[i].off
    requires target < n + TotalLost(gaps)
    ensures off < n
    ensures target <= |Laid(chunk, pos, 0, gaps)|
    ensures Laid(chunk, pos, 0, gaps)[target..] == Losts<T>(head) + Laid(chunk, pos, off, gaps)
  {
    hide PlaceInv, Laid, TotalLost, Losts;
    var lostBefore: nat := 0;
    ghost var from := 0;
    var k := 0;
    PlaceStart(chunk, pos, gaps, target);
    while k < |gaps|
      invariant k <= |gaps| && PlaceInv(chunk, pos, gaps, target, k, from, lostBefore)
    {
      var gap := gaps[k];
      PlaceLoop(chunk, pos, gaps, target, k, from, lostBefore);
      if target < gap.off + lostBefore {
        return target - lostBefore, 0;
      }
      if target < gap.off + lostBefore + gap.lost {
        return gap.off, gap.off + lostBefore + gap.lost - target;
      }
      lostBefore := lostBefore + gap.lost;
      from := gap.off;
      k := k + 1;
    }
    PlaceEnd(chunk, pos, gaps, target, k, from, lostBefore);
    off := MinInt(target - lostBefore, n);
    head := 0;
  }

  lemma {:induction false} PlaceStart<T>(chunk: seq<T>, pos: int, gaps: seq<Gap>, target: nat)
    requires GapsOk(gaps, |chunk|) && target < |chunk| + TotalLost(gaps)
    requires forall i :: 0 <= i < |gaps| ==> 0 < gaps[i].off
    ensures target <= |Laid(chunk, pos, 0, gaps)|
    ensures PlaceInv(chunk, pos, gaps, target, 0, 0, 0)
  {
    LaidLength(chunk, pos, 0, gaps);
    assert gaps[0..] == gaps;
  }

  lemma {:induction false} PlaceLoop<T>(chunk: seq<T>, pos: int, gaps: seq<Gap>, target: nat,
                     k: nat, from: nat, lostBefore: nat)
    requires GapsOk(gaps, |chunk|) && k < |gaps|
    requires PlaceInv(chunk, pos, gaps, target, k, from, lostBefore)
    ensures var g := gaps[k];
      && target <= |Laid(chunk, pos, 0, gaps)|
      && (target < g.off + lostBefore ==>
            lostBefore <= target &&
            Laid(chunk, pos, 0, gaps)[target..] == Losts<T>(0) + Laid(chunk, pos, target - lostBefore, gaps))
      && (g.off + lostBefore <= target < g.off + lostBefore + g.lost ==>
            Laid(chunk, pos, 0, gaps)[target..]
            == Losts<T>(g.off + lostBefore + g.lost - target) + Laid(chunk, pos, g.off, gaps))
      && (g.off + lostBefore + g.lost <= target ==>
            PlaceInv(chunk, pos, gaps, target, k + 1, g.off, lostBefore + g.lost))
  {
    hide Laid, Gots;
    var g := gaps[k];
    PlaceStep(chunk, pos, from, gaps[k..], target - from - lostBefore);
    assert gaps[k..][1..] == gaps[k + 1..];
    TotalLostFirst(gaps[k..]);
    if target < g.off + lostBefore {
      LaidSkips(chunk, pos, target - lostBefore, gaps, k);
    } else if target < g.off + lostBefore + g.lost {
      LaidSkips(chunk, pos, g.off, gaps, k + 1);
    }
  }

  lemma {:induction false} PlaceEnd<T>(chunk: seq<T>, pos: int, gaps: seq<Gap>, target: nat,
                    k: nat, from: nat, lostBefore: nat)
    requires GapsOk(gaps, |chunk|) && k == |gaps|
    requires PlaceInv(chunk, pos, gaps, target, k, from, lostBefore)
    ensures 0 <= target - lostBefore < |chunk|
    ensures target <= |Laid(chunk, pos, 0, gaps)|
    ensures Laid(chunk, pos, 0, gaps)[target..] == Losts<T>(0) + Laid(chunk, pos, target - lostBefore, gaps)
  {
    LaidSkips(chunk, pos, target - lostBefore, gaps, k);
    assert gaps[k..] == [];
    assert chunk[from..][target - from - lostBefore..] == chunk[target - lostBefore..];
  }

  /** The first gap ahead of `from`, and the cell `d` cells after `from`. */
  lemma {:induction false} PlaceStep<T>(chunk: seq<T>, pos: int, from: nat, gaps: seq<Gap>, d: nat)
    requires from <= |chunk| && GapsOk(gaps, |chunk|) && gaps != [] && from < gaps[0].off
    requires d <= |Laid(chunk, pos, from, gaps)|
    ensures var rest := Laid(chunk, pos, gaps[0].off, gaps[1..]);
      var span := gaps[0].off - from;
      && (d < span ==> Laid(chunk, pos, from, gaps)[d..] == Laid(chunk, pos, from + d, gaps))
      && (span <= d < span + gaps[0].lost ==>
            Laid(chunk, pos, from, gaps)[d..] == Losts<T>(span + gaps[0].lost - d) + rest)
      && (span + gaps[0].lost <= d ==>
            |Laid(chunk, pos, from, gaps)| - d == |rest| - (d - span - gaps[0].lost)
            && Laid(chunk, pos, from, gaps)[d..] == rest[d - span - gaps[0].lost..])
  {
    hide Laid, Gots, Losts;
    var off, lost := gaps[0].off, gaps[0].lost;
    var span := off - from;
    LaidAhead(chunk, pos, from, gaps);
    var g, l, rest := Gots(chunk[from..off], pos + from), Losts<T>(lost), Laid(chunk, pos, off, gaps[1..]);
    DropFromThree(g, l, rest, d);
    if d < span {
      LaidAhead(chunk, pos, from + d, gaps);
      GotsDrop(chunk, pos, from, off, d);
    } else if d < span + lost {
      LostsDrop<T>(lost, d - span);
    }
  }

  lemma {:induction false} LaidAhead<T>(chunk: seq<T>, pos: int, from: nat, gaps: seq<Gap>)
    requires from <= |chunk| && GapsOk(gaps, |chunk|) && gaps != [] && from < gaps[0].off
    ensures Laid(chunk, pos, from, gaps)
         == Gots(chunk[from..gaps[0].off], pos + from) + Losts<T>(gaps[0].lost)
            + Laid(chunk, pos, gaps[0].off, gaps[1..])
    ensures |Gots(chunk[from..gaps[0].off], pos + from)| == gaps[0].off - from
    ensures |Losts<T>(gaps[0].lost)| == gaps[0].lost
  {
  }

  lemma {:induction false} GotsDrop<T>(chunk: seq<T>, pos: int, from: nat, off: nat, d: nat)
    requires from + d <= off <= |chunk|
    ensures d <= |Gots(chunk[from..off], pos + from)|
    ensures Gots(chunk[from..off], pos + from)[d..] == Gots(chunk[from + d..off], pos + (from + d))
  {
  }

  lemma {:induction false} LostsDrop<T>(n: nat, d: nat)
    requires d <= n
    ensures |Losts<T>(n)| == n && Losts<T>(n)[d..] == Losts<T>(n - d)
  {
  }

  lemma {:induction false} DropFromThree<T>(a: seq<T>, b: seq<T>, c: seq<T>, d: nat)
    requires d <= |a| + |b| + |c|
    ensures d <= |a| ==> (a + b + c)[d..] == a[d..] + b + c
    ensures |a| <= d <= |a| + |b| ==> (a + b + c)[d..] == b[d - |a|..] + c
    ensures |a| + |b| <= d ==> (a + b + c)[d..] == c[d - |a| - |b|..]
  {
  }

  /** Gaps at or before the start of the layout do not matter. */
  lemma {:induction false} LaidSkips<T>(chunk: seq<T>, pos: int, start: nat, gaps: seq<Gap>, k: nat)
    requires start <= |chunk| && GapsOk(gaps, |chunk|) && k <= |gaps|
    requires forall i :: 0 <= i < k ==> gaps[i].off <= start
    ensures Laid(chunk, pos, start, gaps) == Laid(chunk, pos, start, gaps[k..])
  {
    if k > 0 {
      LaidSkips(chunk, pos, start, gaps[1..], k - 1);
      assert gaps[1..][k - 1..] == gaps[k..];
    } else {
      assert gaps[0..] == gaps;
    }
  }

  // ---------- how feeding moves the window ----------

  lemma {:induction false} NothingCarried<T>(file: seq<Cell<T>>)
    ensures Carries([], file, |file|)
  {
  }

  /** What a later chunk adds to the file is what it adds to the axis. */
  lemma {:induction false} WindowGrows<T>(full: seq<Cell<T>>, view: seq<Slot<T>>, base: int, origin: int,
                       skip: nat, chunk: seq<T>, gaps: seq<Gap>)
    requires GapsOk(gaps, |chunk|)
    requires origin <= |Axis(view, base)| && full == WindowFrom(Axis(view, base), origin)
    ensures var view' := view + MissedSlots(skip) + ChunkSlots(chunk, gaps);
      var next := base + |view| + skip;
      && |MissedSlots<T>(skip)| == skip
      && GapsOk(Inner(gaps), |chunk|)
      && origin <= |Axis(view', base)|
      && full + Skips(skip, base + |view|) + Losts(Before(gaps)) + Laid(chunk, next, 0, Inner(gaps))
         == WindowFrom(Axis(view', base), origin)
  {
    hide *;
    var next := base + |view| + skip;
    var a, m, c := Axis(view, base), MissedSlots<T>(skip), ChunkSlots(chunk, gaps);
    assert |m| == skip by { MissedLength<T>(skip); }
    AxisConcat(view + m, c, base);
    AxisConcat(view, m, base);
    AxisMissed<T>(skip, base + |view|);
    ChunkAxis(chunk, next, gaps);
    var s, l, d := Skips<T>(skip, base + |view|), Losts<T>(Before(gaps)), Laid(chunk, next, 0, Inner(gaps));
    WindowAppend(a, s, origin);
    WindowAppend(a + s, l + d, origin);
    SeqAssoc(full + s, l, d);
  }

  lemma {:induction false} LossBelowGrows<T>(view: seq<Slot<T>>, more: seq<Slot<T>>, k: nat)
    requires k <= |view|
    ensures LossBelow(view + more, k) == LossBelow(view, k)
  {
    LossBelowPrefix(view + more, view, k);
  }

  lemma {:induction false} NoSkips<T>(pos: int)
    ensures forall s: seq<Cell<T>> :: s + Skips<T>(0, pos) == s
  {
  }

  lemma {:induction false} MissedLength<T>(n: nat)
    ensures |MissedSlots<T>(n)| == n
  {
  }

  /** The losses right before a chunk, then the chunk with its inner gaps. */
  lemma {:induction false} ChunkAxis<T>(chunk: seq<T>, pos: int, gaps: seq<Gap>)
    requires GapsOk(gaps, |chunk|)
    ensures GapsOk(Inner(gaps), |chunk|)
    ensures Axis(ChunkSlots(chunk, gaps), pos)
         == Losts<T>(Before(gaps)) + Laid(chunk, pos, 0, Inner(gaps))
  {
    InnerOk(gaps, |chunk|);
    LaidInner(chunk, pos, gaps);
    LaidWholeChunk(chunk, pos, gaps);
  }

  lemma {:induction false} KnowsMore<T>(view: seq<Slot<T>>, base: nat, stream: seq<Slot<T>>, past: seq<Slot<T>>,
                     skip: nat, more: seq<Slot<T>>)
    requires Knows(view, base, stream) && stream <= past && |past| == |stream| + skip
    ensures Knows(view + MissedSlots(skip) + more, base, past + more)
  {
  }

  // ---------- placing the start ----------

  /** Samples from a first sample taken at `captureTime` to the requested instant. */
  function ExactOffset(spec: RunSpec, captureTime: real): real {
    (spec.startMs as real / 1000.0 - captureTime) * spec.rateHz
  }

  /** The requested start, in whole samples after the chunk's first one. */
  function StartOffset(spec: RunSpec, captureTime: real): int {
    RoundHalfEven(ExactOffset(spec, captureTime))
  }

  /** The time of the file's first sample. */
  function FirstTime(spec: RunSpec, captureTime: real): real
    requires 0.0 < spec.rateHz
  {
    captureTime + StartOffset(spec, captureTime) as real / spec.rateHz
  }

  /** The start is placed at most half a sample from the instant asked for. */
  lemma {:induction false} HalfSample(spec: RunSpec, captureTime: real)
    requires 0.0 < spec.rateHz
    ensures -0.5 <= (FirstTime(spec, captureTime) - spec.startMs as real / 1000.0) * spec.rateHz <= 0.5
  {
    var wanted, rate, t := spec.startMs as real / 1000.0, spec.rateHz, StartOffset(spec, captureTime);
    assert (FirstTime(spec, captureTime) - wanted) * rate == t as real - ExactOffset(spec, captureTime);
  }

  lemma {:induction false} NoLosts<T>()
    ensures [] == Losts<T>(0)
    ensures forall s: seq<Cell<T>> :: [] + s == s
  {
  }

  lemma {:induction false} NoSamples<T>(data: seq<T>, pos: int)
    ensures |data| == 0 ==> forall s: seq<Cell<T>> :: s + Gots(data, pos) == s
  {
  }

  lemma {:induction false} StartInChunk<T>(chunk: seq<T>, pos: int, gaps: seq<Gap>, t: nat, off: nat, head: nat)
    requires GapsOk(gaps, |chunk|) && GapsOk(Inner(gaps), |chunk|) && off <= |chunk|
    requires t <= |Laid(chunk, pos, 0, Inner(gaps))|
    requires Laid(chunk, pos, 0, Inner(gaps))[t..] == Losts<T>(head) + Laid(chunk, pos, off, Inner(gaps))
    ensures Before(gaps) + t <= |Axis(ChunkSlots(chunk, gaps), pos)|
    ensures LossBelow(ChunkSlots(chunk, gaps), 0) == 0
    ensures WindowFrom(Axis(ChunkSlots(chunk, gaps), pos), Before(gaps) + t)
         == [] + Losts(head) + Laid(chunk, pos, off, Inner(gaps))
  {
    hide Laid, Axis, ChunkSlots;
    ChunkAxis(chunk, pos, gaps);
  }

  lemma {:induction false} StartInLoss<T>(chunk: seq<T>, pos: int, gaps: seq<Gap>, t: int)
    requires GapsOk(gaps, |chunk|) && GapsOk(Inner(gaps), |chunk|)
    requires t < 0 <= t + Before(gaps)
    ensures Before(gaps) + t <= |Axis(ChunkSlots(chunk, gaps), pos)|
    ensures LossBelow(ChunkSlots(chunk, gaps), 0) == 0
    ensures WindowFrom(Axis(ChunkSlots(chunk, gaps), pos), Before(gaps) + t)
         == [] + Losts(-t) + Laid(chunk, pos, 0, Inner(gaps))
  {
    hide Laid, Axis, ChunkSlots;
    ChunkAxis(chunk, pos, gaps);
  }

  lemma {:induction false} StartInRing<T>(held: seq<T>, begin: nat, chunk: seq<T>, gaps: seq<Gap>, late: nat)
    requires GapsOk(gaps, |chunk|) && GapsOk(Inner(gaps), |chunk|)
    ensures |PlainSlots(held)| == |held|
    ensures var view := PlainSlots(held) + ChunkSlots(chunk, gaps);
      && LossBelow(view, |held|) == 0
      && WindowFrom(Axis(view, begin), 0 - late)
         == Losts(late) + Gots(held, begin) + Losts(Before(gaps)) + Laid(chunk, begin + |held|, 0, Inner(gaps))
  {
    var view := PlainSlots(held) + ChunkSlots(chunk, gaps);
    PlainLoss(held);
    LossBelowPrefix(view, PlainSlots(held), |held|);
    StartInRingAxis(held, begin, chunk, gaps, late);
  }

  lemma {:induction false} StartInRingAxis<T>(held: seq<T>, begin: nat, chunk: seq<T>, gaps: seq<Gap>, late: nat)
    requires GapsOk(gaps, |chunk|) && GapsOk(Inner(gaps), |chunk|)
    ensures WindowFrom(Axis(PlainSlots(held) + ChunkSlots(chunk, gaps), begin), 0 - late)
         == Losts(late) + Gots(held, begin) + Losts(Before(gaps)) + Laid(chunk, begin + |held|, 0, Inner(gaps))
  {
    hide *;
    assert |PlainSlots(held)| == |held| by { PlainLength(held); }
    AxisConcat(PlainSlots(held), ChunkSlots(chunk, gaps), begin);
    AxisPlain(held, begin);
    ChunkAxis(chunk, begin + |held|, gaps);
    var g, l, d := Gots(held, begin), Losts<T>(Before(gaps)), Laid(chunk, begin + |held|, 0, Inner(gaps));
    WindowLate(g + (l + d), late);
    SeqAssoc(g, l, d);
    SeqAssoc(Losts(late), g + l, d);
    SeqAssoc(Losts(late), g, l);
  }

  lemma {:induction false} PlainLength<T>(data: seq<T>)
    ensures |PlainSlots(data)| == |data|
  {
  }

  lemma {:induction false} WindowLate<T>(axis: seq<Cell<T>>, late: nat)
    ensures WindowFrom(axis, 0 - late) == Losts(late) + axis
  {
  }

  lemma {:induction false} PlainLoss<T>(data: seq<T>)
    ensures LossBelow(PlainSlots(data), |data|) == 0
  {
    if data != [] {
      PlainLoss(data[..|data| - 1]);
      assert PlainSlots(data)[..|data| - 1] == PlainSlots(data[..|data| - 1]);
      LossBelowPrefix(PlainSlots(data), PlainSlots(data[..|data| - 1]), |data| - 1);
    }
  }

  lemma {:induction false} KnowsChunk<T>(past: seq<Slot<T>>, chunk: seq<Slot<T>>)
    ensures Knows(chunk, |past|, past + chunk)
  {
  }

  lemma {:induction false} KnowsRing<T>(past: seq<Slot<T>>, begin: nat, chunk: seq<Slot<T>>)
    requires AllHere(past)
    requires begin <= |past|
    ensures Knows(PlainSlots(Samples(past)[begin..]) + chunk, begin, past + chunk)
  {
  }

  /** A cell of a window that is no loss is at its position's time on the axis. */
  lemma {:induction false} WindowCell<T>(view: seq<Slot<T>>, base: nat, origin: int, i: nat)
    requires origin <= |Axis(view, base)| && i < |WindowFrom(Axis(view, base), origin)|
    requires !WindowFrom(Axis(view, base), origin)[i].Lost?
    ensures var c := WindowFrom(Axis(view, base), origin)[i];
      && base <= c.pos < base + |view|
      && origin + i == TimeOf(view, c.pos - base)
      && c == CellOf(view[c.pos - base], c.pos)
  {
    hide Axis, LossBelow, TimeOf, CellOf;
    var axis := Axis(view, base);
    assert 0 <= origin + i && WindowFrom(axis, origin)[i] == axis[origin + i];
    AxisOnlyAtTime(view, base, origin + i);
    AxisAtTime(view, base, axis[origin + i].pos - base);
  }

  // ---------- the cutter ----------

  class RunCutter<T(0)> {
    const spec: RunSpec
    var started: bool
    var done: bool
    var written: nat
    var reason: Option<string>
    var nextPos: nat
    var gaps: seq<Run>
    var lost: nat
    var late: nat
    var firstTime: Option<real>
    var streamStart: Option<nat>
    var breaks: seq<Break>
    var zerosTotal: nat

    /** The file without its length limit, and the stream position that follows it. */
    ghost var full: seq<Cell<T>>
    ghost var cursor: nat
    /** The stream as the cutter knows it: `view[k]` is stream position `viewBase + k`. */
    ghost var view: seq<Slot<T>>
    ghost var viewBase: nat
    /** The true stream up to `nextPos`. */
    ghost var stream: seq<Slot<T>>
    /** The chunk the run began in, what was lost right before it, and the requested
        start in samples after that chunk's first sample. */
    ghost var firstChunk: nat
    ghost var firstLoss: nat
    ghost var target: int

    constructor (spec: RunSpec)
      ensures this.spec == spec && !started && !done && File() == []
      ensures Valid()
    {
      this.spec := spec;
      started, done, written, reason := false, false, 0, None;
      nextPos, gaps, lost, late := 0, [], 0, 0;
      firstTime, streamStart, breaks, zerosTotal := None, None, [], 0;
      full, cursor, view, viewBase, stream := [], 0, [], 0, [];
      firstChunk, firstLoss, target := 0, 0, 0;
    }

    /** The file's contents: everything handed to the writer so far. */
    ghost function File(): seq<Cell<T>>
      reads this
    {
      Cap(full, spec.nSamples)
    }

    /** The requested start on the axis of `view`, and on the axis of the true stream. */
    ghost function ViewOrigin(): int
      requires viewBase <= firstChunk <= viewBase + |view|
      reads this
    {
      (firstChunk - viewBase) + LossBelow(view, firstChunk - viewBase) + firstLoss + target
    }

    ghost function TrueOrigin(): int
      requires firstChunk <= |stream|
      reads this
    {
      firstChunk + LossBelow(stream, firstChunk) + firstLoss + target
    }

    function StreamEnd(): int
      requires streamStart.Some?
      reads this
    {
      streamStart.value + written - zerosTotal
    }

    ghost function Books(): Book
      reads this
    {
      Book(written, gaps, lost, breaks, zerosTotal)
    }

    /** The bookkeeping agrees with the file. */
    ghost predicate Consistent()
      reads this
    {
      && started && streamStart.Some?
      && streamStart.value <= cursor
      && BookOk(Books(), full, spec.nSamples, streamStart.value, cursor)
    }

    /** The file is a window of the axis of `view`. */
    ghost predicate Windowed()
      reads this
    {
      && viewBase <= firstChunk <= viewBase + |view|
      && ViewOrigin() <= |Axis(view, viewBase)|
      && full == WindowFrom(Axis(view, viewBase), ViewOrigin())
      && Knows(view, viewBase, stream)
    }

    ghost predicate Valid()
      reads this
    {
      && (!started ==> full == [] && late == 0 && Books() == Book(0, [], 0, [], 0) && streamStart == None)
      && (started ==> Consistent() && Windowed() && cursor == nextPos == |stream|)
      && (started && spec.nSamples <= written ==> done)
      && (!started && done ==> reason.Some?)
    }

    function FileStatus(): (s: Status)
      reads this
    {
      if !started then if done then Missed else Pending
      else if !done then Recording
      else if reason == None && lost == 0 && written == spec.nSamples then Recorded
      else Partial
    }

    /** The file index of stream sample `streamPos` (None before the run started). */
    function FileIndex(streamPos: nat): (i: Option<int>)
      reads this
    {
      if streamStart == None then None
      else Some(streamPos - streamStart.value + ZerosBefore(breaks, streamPos))
    }

    // ---------- writing ----------

    function Room(): int
      reads this
    {
      spec.nSamples - written
    }

    method CheckDone()
      modifies `done
      ensures done == (old(done) || spec.nSamples <= written)
    {
      if written >= spec.nSamples {
        done := true;
      }
    }

    /** Stream samples that follow the file's last one. */
    method WriteIq(ops: seq<Op<T>>, data: seq<T>, ghost mark: nat) returns (out: seq<Op<T>>)
      requires Consistent()
      requires Carries(ops, File(), mark)
      modifies `written, `done, `full, `cursor
      ensures Consistent()
      ensures full == old(full) + Gots(data, old(cursor)) && cursor == old(cursor) + |data|
      ensures Carries(out, File(), mark)
      ensures old(written) <= written
      ensures done == (old(done) || spec.nSamples <= written)
    {
      hide BookOk, Carries, Laid, Gots;
      SamplesKeepBook(Books(), full, spec.nSamples, streamStart.value, cursor, data);
      var k := MinInt(|data|, Room());
      out := ops;
      if k > 0 {
        CarryIq(ops, data[..k], cursor, File(), mark);
        out := out + [Op.Iq(data[..k])];
        written := written + k;
      }
      full, cursor := full + Gots(data, cursor), cursor + |data|;
      CheckDone();
    }

    /** Counts `k` zeros that stand for lost samples, or for positions skipped. */
    method CountZeros(k: nat, at: nat, shifts: bool)
      requires 0 < k
      modifies `written, `gaps, `lost, `breaks, `zerosTotal
      ensures Books() == if shifts then AfterLosses(old(Books()), k, at) else AfterSkips(old(Books()), k)
    {
      hide ExtendRuns;
      if shifts {
        zerosTotal := zerosTotal + k;
        breaks := breaks + [Break(at, zerosTotal)];
      }
      gaps := ExtendRuns(gaps, written, k);
      lost := lost + k;
      written := written + k;
    }

    /** `count` zeros before stream position `at`. With `shifts` they stand for lost
        samples; without it, for stream positions that were skipped. */
    method WriteZeros(ops: seq<Op<T>>, count: nat, at: nat, shifts: bool, ghost mark: nat)
      returns (out: seq<Op<T>>)
      requires Consistent()
      requires at == if shifts then cursor else cursor + count
      requires Carries(ops, File(), mark)
      modifies `written, `done, `gaps, `lost, `breaks, `zerosTotal, `full, `cursor
      ensures Consistent()
      ensures full == old(full) + (if shifts then Losts(count) else Skips(count, old(cursor)))
      ensures cursor == at
      ensures Carries(out, File(), mark)
      ensures old(written) <= written
      ensures GrownFrom(old(breaks), breaks, old(cursor))
      ensures done == (old(done) || spec.nSamples <= written)
    {
      hide BookOk, Carries, Laid, Gots, GrownFrom, ExtendRuns;
      NotGrown(breaks, cursor);
      LossesKeepBook(Books(), full, spec.nSamples, streamStart.value, cursor, count);
      SkipsKeepBook(Books(), full, spec.nSamples, streamStart.value, cursor, count);
      var k := MinInt(count, Room());
      out := ops;
      ghost var cells: seq<Cell<T>> := if shifts then Losts(k) else Skips(k, cursor);
      if k > 0 {
        CarryZeros(ops, cells, File(), mark);
        out := out + [Op.Zeros(k)];
        CountZeros(k, at, shifts);
      }
      full := full + (if shifts then Losts(count) else Skips(count, cursor));
      cursor := at;
      CheckDone();
    }

    /** Samples, then `lost` zeros for what was lost after them. */
    method WriteGap(ops: seq<Op<T>>, data: seq<T>, lost: nat, at: nat, ghost mark: nat) returns (out: seq<Op<T>>)
      requires Consistent() && at == cursor + |data|
      requires Carries(ops, File(), mark)
      modifies `written, `done, `gaps, `lost, `breaks, `zerosTotal, `full, `cursor
      ensures Consistent()
      ensures full == old(full) + Gots(data, old(cursor)) + Losts(lost) && cursor == old(cursor) + |data|
      ensures Carries(out, File(), mark)
      ensures old(written) <= written
      ensures GrownFrom(old(breaks), breaks, old(cursor))
      ensures done == (old(done) || spec.nSamples <= written)
    {
      hide BookOk, Carries, GrownFrom, Gots, Losts;
      NotGrown(breaks, cursor);
      out := WriteIq(ops, data, mark);
      ghost var known, from := breaks, cursor;
      out := WriteZeros(out, lost, at, true, mark);
      GrownTwice(old(breaks), known, breaks, old(cursor), from);
    }

    /** Samples `chunk[start..]` with zeros for the gaps after `start`; a gap at
        `start` itself lies before the run. */
    method WriteChunk(ops: seq<Op<T>>, chunk: seq<T>, chunkStart: nat, start: nat, inner: seq<Gap>, ghost mark: nat)
      returns (out: seq<Op<T>>)
      requires Consistent()
      requires start <= |chunk| && GapsOk(inner, |chunk|) && cursor == chunkStart + start
      requires Carries(ops, File(), mark)
      modifies `written, `done, `gaps, `lost, `breaks, `zerosTotal, `full, `cursor
      ensures Consistent()
      ensures full == old(full) + Laid(chunk, chunkStart, start, inner)
      ensures cursor == chunkStart + |chunk|
      ensures Carries(out, File(), mark)
      ensures old(written) <= written
      ensures GrownFrom(old(breaks), breaks, old(cursor))
      ensures done == (old(done) || spec.nSamples <= written)
    {
      hide BookOk, Carries, GrownFrom, Laid, Gots, Losts;
      NotGrown(breaks, cursor);
      out := ops;
      var pos := start;
      assert inner[0..] == inner;
      for k := 0 to |inner|
        invariant Consistent() && streamStart == old(streamStart)
        invariant start <= pos <= |chunk| && cursor == chunkStart + pos
        invariant forall i :: k <= i < |inner| && inner[i].off > start ==> pos < inner[i].off
        invariant full + Laid(chunk, chunkStart, pos, inner[k..])
                  == old(full) + Laid(chunk, chunkStart, start, inner)
        invariant Carries(out, File(), mark)
        invariant done ==> old(done) || spec.nSamples <= written
        invariant old(written) <= written
        invariant old(cursor) <= cursor && GrownFrom(old(breaks), breaks, old(cursor))
        invariant old(done) ==> done
      {
        LaidNext(full, chunk, chunkStart, pos, inner[k..]);
        assert inner[k..][1..] == inner[k + 1..];
        var off, n := inner[k].off, inner[k].lost;
        if off > start {
          ghost var known, from := breaks, cursor;
          out := WriteGap(out, chunk[pos..off], n, chunkStart + off, mark);
          GrownTwice(old(breaks), known, breaks, old(cursor), from);
          pos := off;
        }
      }
      LaidEnd(chunk, chunkStart, pos);
      assert inner[|inner|..] == [];
      out := WriteIq(out, chunk[pos..], mark);
    }

    // ---------- feeding ----------

    /** What the receiver loop guarantees of a chunk: its gaps lie inside it, and the
        ring, if there is one, already holds the stream up to its end. `past` is the
        true stream before the chunk. */
    ghost predicate Received(chunk: seq<T>, chunkStart: nat, recvGaps: seq<Gap>,
                             ring: CircularBuffer?<T>, past: seq<Slot<T>>)
      reads if ring == null then {} else {ring, ring.buffer}
    {
      && GapsOk(recvGaps, |chunk|)
      && |past| == chunkStart
      && AllHere(past)
      && (ring != null ==> ring.Valid() && ring.history == Samples(past) + chunk)
    }

    /** The oldest position that can be read back before a chunk. */
    ghost function OldestHeld(ring: CircularBuffer?<T>, chunkStart: nat): nat
      reads if ring == null then {} else {ring}
    {
      if ring == null then chunkStart else ring.Oldest()
    }

    /** End the run early (stopped, retuned). Nothing is padded. */
    method End(why: string) returns (ops: seq<Op<T>>)
      requires Valid()
      modifies `done, `reason
      ensures Valid() && done && ops == []
      ensures reason == if old(done) then old(reason) else Some(why)
    {
      hide BookOk, Knows, Axis, WindowFrom, LossBelow;
      if !done {
        done := true;
        reason := Some(why);
      }
      ops := [];
    }

    /** How the start was placed. */
    ghost function Placement(): (nat, nat, int, nat)
      reads this
    {
      (firstChunk, firstLoss, target, viewBase)
    }

    method Feed(chunk: seq<T>, chunkStart: nat, captureTime: real, recvGaps: seq<Gap>,
                centerFreqHz: real, ring: CircularBuffer?<T>, ghost past: seq<Slot<T>>)
      returns (ops: seq<Op<T>>)
      requires Valid() && 0.0 < spec.rateHz
      requires Received(chunk, chunkStart, recvGaps, ring, past)
      requires started ==> stream <= past
      modifies this
      ensures Valid()
      ensures Carries(ops, File(), |old(File())|)
      ensures old(done) || (old(started) && centerFreqHz != spec.centerFreqHz) ==>
                full == old(full) && done && started == old(started) && stream == old(stream)
      ensures !old(done) && old(started) && centerFreqHz == spec.centerFreqHz ==>
                && started && stream == past + ChunkSlots(chunk, recvGaps)
                && view == old(view) + MissedSlots(chunkStart - |old(stream)|) + ChunkSlots(chunk, recvGaps)
                && reason == old(reason)
      ensures !old(done) && !old(started) ==>
                if started
                then Begun(chunk, chunkStart, captureTime, recvGaps, OldestHeld(ring, chunkStart), past)
                else full == []
      ensures !old(done) && !old(started) ==>
                (started <==> StartOffset(spec, captureTime) < |chunk| + TotalLost(Inner(recvGaps)))
      ensures done <==> old(done) || (old(started) && centerFreqHz != spec.centerFreqHz)
                        || (started && spec.nSamples <= written)
      ensures old(started) ==> GrownFrom(old(breaks), breaks, old(cursor)) && old(cursor) <= cursor
      ensures old(started) ==> streamStart == old(streamStart) && Placement() == old(Placement())
    {
      hide Valid, Begun, BookOk, Knows, Axis, WindowFrom, LossBelow, Carries, ChunkSlots, Inner, GapsOk, TotalLost, GrownFrom;
      NothingCarried(File());
      NotGrown(breaks, cursor);
      if done {
        return [];
      }
      if started {
        if centerFreqHz != spec.centerFreqHz {
          ops := End("retuned");
          return;
        }
        ops := Continue(chunk, chunkStart, recvGaps, past);
      } else {
        ops := Begin(chunk, chunkStart, captureTime, recvGaps, ring, past);
      }
    }

    method Continue(chunk: seq<T>, chunkStart: nat, recvGaps: seq<Gap>, ghost past: seq<Slot<T>>)
      returns (ops: seq<Op<T>>)
      requires Valid() && started && !done
      requires GapsOk(recvGaps, |chunk|) && |past| == chunkStart && stream <= past
      modifies this
      ensures Valid() && started
      ensures Carries(ops, File(), |old(File())|)
      ensures stream == past + ChunkSlots(chunk, recvGaps)
      ensures view == old(view) + MissedSlots(chunkStart - |old(stream)|) + ChunkSlots(chunk, recvGaps)
      ensures reason == old(reason) && done == (spec.nSamples <= written)
      ensures GrownFrom(old(breaks), breaks, old(cursor)) && old(cursor) <= cursor
      ensures streamStart == old(streamStart) && Placement() == old(Placement())
    {
      hide BookOk, Laid, Axis, Carries, ChunkSlots, Knows, WindowFrom, Inner, Before, LossBelow,
           Skips, Losts, Gots, GapsOk, MissedSlots, GrownFrom;
      ghost var skip := chunkStart - nextPos;
      WindowGrows(full, view, viewBase, ViewOrigin(), skip, chunk, recvGaps);
      KnowsMore(view, viewBase, stream, past, skip, ChunkSlots(chunk, recvGaps));
      LossBelowGrows(view, MissedSlots(skip) + ChunkSlots(chunk, recvGaps), firstChunk - viewBase);
      SeqAssoc(view, MissedSlots(skip), ChunkSlots(chunk, recvGaps));
      ops := WriteNext(chunk, chunkStart, recvGaps);
      nextPos := chunkStart + |chunk|;
      view := view + MissedSlots(skip) + ChunkSlots(chunk, recvGaps);
      stream := past + ChunkSlots(chunk, recvGaps);
    }

    /** Positions that never reached this cutter (they move the file and the stream
        alike), what was lost right before the chunk, and the chunk. */
    method WriteNext(chunk: seq<T>, chunkStart: nat, recvGaps: seq<Gap>) returns (ops: seq<Op<T>>)
      requires Consistent() && nextPos == cursor <= chunkStart && GapsOk(recvGaps, |chunk|)
      modifies `written, `done, `gaps, `lost, `breaks, `zerosTotal, `full, `cursor
      ensures Consistent() && GapsOk(Inner(recvGaps), |chunk|)
      ensures full == old(full) + Skips(chunkStart - nextPos, nextPos) + Losts(Before(recvGaps))
                      + Laid(chunk, chunkStart, 0, Inner(recvGaps))
      ensures cursor == chunkStart + |chunk|
      ensures GrownFrom(old(breaks), breaks, old(cursor))
      ensures Carries(ops, File(), |old(File())|)
      ensures done == (old(done) || spec.nSamples <= written)
    {
      hide BookOk, Laid, Carries, Inner, Before, Skips, Losts, Gots, GrownFrom;
      ghost var mark := |File()|;
      NothingCarried(File());
      InnerOk(recvGaps, |chunk|);
      NoSkips<T>(nextPos);
      NotGrown(breaks, cursor);
      ops := [];
      if chunkStart > nextPos {
        ops := WriteZeros(ops, chunkStart - nextPos, chunkStart, false, mark);
      }
      ghost var known, from := breaks, cursor;
      ops := WriteLossesAndChunk(ops, chunk, chunkStart, recvGaps, mark);
      GrownTwice(old(breaks), known, breaks, old(cursor), from);
    }

    /** What was lost right before a chunk, then the chunk. */
    method WriteLossesAndChunk(ops: seq<Op<T>>, chunk: seq<T>, chunkStart: nat, recvGaps: seq<Gap>, ghost mark: nat)
      returns (out: seq<Op<T>>)
      requires Consistent() && cursor == chunkStart && GapsOk(recvGaps, |chunk|)
      requires Carries(ops, File(), mark)
      modifies `written, `done, `gaps, `lost, `breaks, `zerosTotal, `full, `cursor
      ensures Consistent() && GapsOk(Inner(recvGaps), |chunk|)
      ensures full == old(full) + Losts(Before(recvGaps)) + Laid(chunk, chunkStart, 0, Inner(recvGaps))
      ensures cursor == chunkStart + |chunk|
      ensures Carries(out, File(), mark)
      ensures old(written) <= written
      ensures GrownFrom(old(breaks), breaks, old(cursor))
      ensures done == (old(done) || spec.nSamples <= written)
    {
      hide BookOk, Laid, Carries, Inner, Before, Losts, GrownFrom;
      InnerOk(recvGaps, |chunk|);
      out := WriteZeros(ops, Before(recvGaps), chunkStart, true, mark);
      ghost var known, from := breaks, cursor;
      out := WriteChunk(out, chunk, chunkStart, 0, Inner(recvGaps), mark);
      GrownTwice(old(breaks), known, breaks, old(cursor), from);
    }

    /** How the first chunk that reaches the requested instant places the start.
        `oldest` is the oldest stream position the ring still holds. */
    ghost predicate Begun(chunk: seq<T>, chunkStart: nat, captureTime: real, recvGaps: seq<Gap>,
                          oldest: nat, past: seq<Slot<T>>)
      requires |past| == chunkStart && AllHere(past)
      reads this
    {
      var before := Before(recvGaps);
      && started && streamStart.Some?
      && target == StartOffset(spec, captureTime)
      && (0.0 < spec.rateHz ==> firstTime == Some(FirstTime(spec, captureTime)))
      && firstChunk == chunkStart && firstLoss == before
      && stream == past + ChunkSlots(chunk, recvGaps)
      && (if 0 <= target + before then
            // In this chunk, or among the samples lost right before it.
            viewBase == chunkStart && view == ChunkSlots(chunk, recvGaps) && late == 0
          else
            FromRing(chunk, chunkStart + target + before, recvGaps, oldest, past))
    }

    /** A start at the wanted position, or at the oldest one held, of a stretch read back. */
    ghost predicate FromRing(chunk: seq<T>, wanted: int, recvGaps: seq<Gap>, oldest: nat, past: seq<Slot<T>>)
      requires AllHere(past)
      reads this
    {
      && streamStart == Some(viewBase) && viewBase <= |past|
      && viewBase == MaxInt(wanted, MinInt(oldest, |past|))
      && view == PlainSlots(Samples(past)[viewBase..]) + ChunkSlots(chunk, recvGaps)
      && late == MinInt(viewBase - wanted, spec.nSamples)
    }

    method Begin(chunk: seq<T>, chunkStart: nat, captureTime: real, recvGaps: seq<Gap>,
                 ring: CircularBuffer?<T>, ghost past: seq<Slot<T>>)
      returns (ops: seq<Op<T>>)
      requires Valid() && !started && !done && 0.0 < spec.rateHz
      requires Received(chunk, chunkStart, recvGaps, ring, past)
      modifies this
      ensures Valid()
      ensures Carries(ops, File(), |old(File())|)
      ensures if started
              then Begun(chunk, chunkStart, captureTime, recvGaps, old(OldestHeld(ring, chunkStart)), past)
              else full == [] && !done
      ensures started <==> StartOffset(spec, captureTime) < |chunk| + TotalLost(Inner(recvGaps))
      ensures started ==> done == (spec.nSamples <= written)
    {
      var t := StartOffset(spec, captureTime);
      if t >= |chunk| + TotalLost(Inner(recvGaps)) {
        NothingCarried(File());
        return []; // not due yet
      }
      var begin, data := ReadBack(chunkStart + t + Before(recvGaps), chunk, chunkStart, recvGaps, ring, past);
      ops := BeginAt(chunk, chunkStart, captureTime, recvGaps, OldestHeld(ring, chunkStart), past, begin, data);
    }

    method BeginAt(chunk: seq<T>, chunkStart: nat, captureTime: real, recvGaps: seq<Gap>,
                   ghost oldest: nat, ghost past: seq<Slot<T>>, begin: nat, data: Option<seq<T>>)
      returns (ops: seq<Op<T>>)
      requires Valid() && !started && !done && 0.0 < spec.rateHz
      requires GapsOk(recvGaps, |chunk|) && |past| == chunkStart && AllHere(past)
      requires StartOffset(spec, captureTime) < |chunk| + TotalLost(Inner(recvGaps))
      requires var wanted := chunkStart + StartOffset(spec, captureTime) + Before(recvGaps);
               wanted < chunkStart ==>
                 && begin == MaxInt(wanted, MinInt(oldest, chunkStart)) <= chunkStart
                 && data == if begin < chunkStart then Some(Samples(past)[begin..]) else None
      modifies this
      ensures Valid()
      ensures Carries(ops, File(), 0) && old(full) == []
      ensures Begun(chunk, chunkStart, captureTime, recvGaps, oldest, past)
      ensures done == (spec.nSamples <= written)
    {
      hide BookOk, Laid, Axis, Carries, ChunkSlots, PlainSlots, LossBelow, Knows, WindowFrom, Inner, Before, Losts, Gots,
           GapsOk, TotalLost, StartOffset, FirstTime, Samples;
      var t := StartOffset(spec, captureTime);
      MarkStarted(chunk, chunkStart, captureTime, recvGaps, past);
      if t + Before(recvGaps) >= 0 {
        ops := BeginInChunk(chunk, chunkStart, recvGaps, past, t);
      } else {
        ops := BeginInRing(chunk, chunkStart, recvGaps, past, t, begin, data);
      }
    }

    method MarkStarted(chunk: seq<T>, chunkStart: nat, captureTime: real, recvGaps: seq<Gap>,
                       ghost past: seq<Slot<T>>)
      requires 0.0 < spec.rateHz
      modifies `started, `firstTime, `nextPos, `target, `firstChunk, `firstLoss, `stream
      ensures started && firstTime == Some(FirstTime(spec, captureTime))
      ensures nextPos == chunkStart + |chunk|
      ensures target == StartOffset(spec, captureTime)
      ensures firstChunk == chunkStart && firstLoss == Before(recvGaps)
      ensures stream == past + ChunkSlots(chunk, recvGaps)
    {
      started := true;
      firstTime := Some(FirstTime(spec, captureTime));
      nextPos := chunkStart + |chunk|;
      target, firstChunk, firstLoss := StartOffset(spec, captureTime), chunkStart, Before(recvGaps);
      stream := past + ChunkSlots(chunk, recvGaps);
    }

    /** The stretch to read back for a start at `wanted`: from there, or from the oldest
        sample held. The samples are needed only for a start before the chunk. */
    method ReadBack(wanted: int, ghost chunk: seq<T>, chunkStart: nat, ghost recvGaps: seq<Gap>,
                    ring: CircularBuffer?<T>, ghost past: seq<Slot<T>>)
      returns (begin: nat, data: Option<seq<T>>)
      requires Received(chunk, chunkStart, recvGaps, ring, past)
      ensures wanted < chunkStart ==>
                && begin == MaxInt(wanted, MinInt(OldestHeld(ring, chunkStart), chunkStart))
                && begin <= chunkStart
                && data == if begin < chunkStart then Some(Samples(past)[begin..]) else None
    {
      var oldest := chunkStart;
      if ring != null {
        var total;
        oldest, total := ring.Bounds();
      }
      begin := MaxInt(wanted, MinInt(oldest, chunkStart));
      data := None;
      if ring != null && begin < chunkStart {
        data := ring.ReadRange(begin, chunkStart);
        assert ring.history[begin..chunkStart] == Samples(past)[begin..];
      }
      if data == None {
        begin := chunkStart;
      }
    }

    /** The file starts at stream position `pos`. */
    method StartAt(pos: nat)
      requires started && full == [] && Books() == Book(0, [], 0, [], 0)
      modifies `streamStart, `cursor
      ensures streamStart == Some(pos) && cursor == pos && Consistent()
    {
      streamStart := Some(pos);
      cursor := pos;
      EmptyBook<T>(spec.nSamples, pos);
    }

    /** A start inside the chunk, or among the samples lost right before it. */
    method BeginInChunk(chunk: seq<T>, chunkStart: nat, recvGaps: seq<Gap>, ghost past: seq<Slot<T>>, t: int)
      returns (ops: seq<Op<T>>)
      requires GapsOk(recvGaps, |chunk|) && |past| == chunkStart
      requires started && !done && full == [] && Books() == Book(0, [], 0, [], 0)
      requires target == t && firstChunk == chunkStart && firstLoss == Before(recvGaps)
      requires 0 <= t + Before(recvGaps) && t < |chunk| + TotalLost(Inner(recvGaps))
      requires stream == past + ChunkSlots(chunk, recvGaps)
      modifies `written, `done, `gaps, `lost, `breaks, `zerosTotal, `full, `cursor, `streamStart, `view, `viewBase
      ensures Consistent() && Windowed() && cursor == chunkStart + |chunk| == |stream|
      ensures Carries(ops, File(), 0)
      ensures viewBase == chunkStart && view == ChunkSlots(chunk, recvGaps)
      ensures done == (spec.nSamples <= written)
    {
      hide BookOk, Laid, Axis, Carries, ChunkSlots, LossBelow, Knows, WindowFrom, Inner, Before, Losts, Gots,
           GapsOk, TotalLost;
      InnerOk(recvGaps, |chunk|);
      KnowsChunk(past, ChunkSlots(chunk, recvGaps));
      if t >= 0 {
        var off, head := Place(t, Inner(recvGaps), |chunk|, chunk, chunkStart);
        StartInChunk(chunk, chunkStart, recvGaps, t, off, head);
        ops := WriteFirst(chunk, chunkStart, recvGaps, off, head);
      } else {
        StartInLoss(chunk, chunkStart, recvGaps, t);
        ops := WriteFirst(chunk, chunkStart, recvGaps, 0, -t);
      }
      view, viewBase := ChunkSlots(chunk, recvGaps), chunkStart;
    }

    /** The file's first cells: `head` zeros, then the chunk from `off` on. */
    method WriteFirst(chunk: seq<T>, chunkStart: nat, recvGaps: seq<Gap>, off: nat, head: nat)
      returns (ops: seq<Op<T>>)
      requires GapsOk(recvGaps, |chunk|) && off <= |chunk|
      requires started && !done && full == [] && Books() == Book(0, [], 0, [], 0)
      modifies `written, `done, `gaps, `lost, `breaks, `zerosTotal, `full, `cursor, `streamStart
      ensures Consistent() && GapsOk(Inner(recvGaps), |chunk|) && cursor == chunkStart + |chunk|
      ensures full == [] + Losts(head) + Laid(chunk, chunkStart, off, Inner(recvGaps))
      ensures Carries(ops, File(), 0)
      ensures done == (spec.nSamples <= written)
    {
      hide BookOk, Laid, Carries, Inner, Losts;
      NothingCarried(File());
      InnerOk(recvGaps, |chunk|);
      StartAt(chunkStart + off);
      ops := WriteZeros([], head, chunkStart + off, true, 0);
      ops := WriteChunk(ops, chunk, chunkStart, off, Inner(recvGaps), 0);
    }

    /** A start older than the chunk: the stretch read back, then the chunk. The losses
        right before the chunk are counted; gaps logged before earlier chunks are not
        known here. */
    method BeginInRing(chunk: seq<T>, chunkStart: nat, recvGaps: seq<Gap>, ghost past: seq<Slot<T>>, t: int,
                       begin: nat, data: Option<seq<T>>)
      returns (ops: seq<Op<T>>)
      requires GapsOk(recvGaps, |chunk|) && |past| == chunkStart && AllHere(past)
      requires started && !done && full == [] && Books() == Book(0, [], 0, [], 0)
      requires target == t && firstChunk == chunkStart && firstLoss == Before(recvGaps)
      requires stream == past + ChunkSlots(chunk, recvGaps)
      requires chunkStart + t + Before(recvGaps) <= begin <= chunkStart
      requires data == if begin < chunkStart then Some(Samples(past)[begin..]) else None
      requires late == 0
      modifies `written, `done, `gaps, `lost, `breaks, `zerosTotal, `full, `cursor, `streamStart, `view, `viewBase, `late
      ensures Consistent() && Windowed() && cursor == chunkStart + |chunk| == |stream|
      ensures Carries(ops, File(), 0)
      ensures viewBase == begin && streamStart == Some(begin)
      ensures view == PlainSlots(Samples(past)[begin..]) + ChunkSlots(chunk, recvGaps)
      ensures late == MinInt(begin - (chunkStart + t + Before(recvGaps)), spec.nSamples)
      ensures done == (spec.nSamples <= written)
    {
      hide BookOk, Laid, Axis, Carries, ChunkSlots, PlainSlots, LossBelow, Knows, WindowFrom, Inner, Before, Losts, Gots,
           GapsOk, AllHere;
      ghost var held := Samples(past)[begin..];
      var lateBy := begin - (chunkStart + t + Before(recvGaps));
      InnerOk(recvGaps, |chunk|);
      StartInRing(held, begin, chunk, recvGaps, lateBy);
      KnowsRing(past, begin, ChunkSlots(chunk, recvGaps));
      ops := WriteHeld(lateBy, data, held, begin);
      ops := WriteLossesAndChunk(ops, chunk, chunkStart, recvGaps, 0);
      view, viewBase := PlainSlots(held) + ChunkSlots(chunk, recvGaps), begin;
    }

    /** The zeros for a late start, then the stretch read back. */
    method WriteHeld(lateBy: nat, data: Option<seq<T>>, ghost held: seq<T>, begin: nat)
      returns (ops: seq<Op<T>>)
      requires started && !done && full == [] && Books() == Book(0, [], 0, [], 0) && late == 0
      requires data == if held == [] then None else Some(held)
      modifies `written, `done, `gaps, `lost, `breaks, `zerosTotal, `full, `cursor, `streamStart, `late
      ensures Consistent() && cursor == begin + |held| && streamStart == Some(begin)
      ensures full == Losts(lateBy) + Gots(held, begin)
      ensures Carries(ops, File(), 0)
      ensures late == MinInt(lateBy, spec.nSamples)
      ensures done ==> spec.nSamples <= written
    {
      hide BookOk, Carries, Losts, Gots;
      NothingCarried(File());
      NoLosts<T>();
      NoSamples(held, begin);
      ops := [];
      StartAt(begin);
      if lateBy != 0 {
        late := MinInt(lateBy, spec.nSamples);
        ops := WriteZeros(ops, lateBy, begin, true, 0);
      }
      if data != None {
        ops := WriteIq(ops, data.value, 0);
      }
    }

    // ---------- what the file promises ----------

    /** Each file cell that stands for a stream position is at that position's time on
        the axis of `view`, and holds what is known of it. */
    lemma {:induction false} CellTime(i: nat)
      requires Valid() && started && i < |File()| && !File()[i].Lost?
      ensures viewBase <= File()[i].pos < viewBase + |view|
      ensures var k := File()[i].pos - viewBase;
        && ViewOrigin() + i == TimeOf(view, k)
        && File()[i] == CellOf(view[k], File()[i].pos)
    {
      hide BookOk, Axis, WindowFrom, LossBelow, TimeOf, CellOf, Knows;
      assert File()[i] == full[i];
      WindowCell(view, viewBase, ViewOrigin(), i);
    }

    lemma {:induction false} FileIndexAt(p: nat)
      requires Valid() && started && streamStart.value <= p < StreamEnd()
      ensures FileIndex(p).Some? && viewBase <= p < viewBase + |view| == |stream|
      ensures var i := FileIndex(p).value;
        && 0 <= i < written == |File()| && ViewOrigin() + i == TimeOf(view, p - viewBase)
        && File()[i] == CellOf(view[p - viewBase], p)
        && (view[p - viewBase].v == stream[p].v || view[p - viewBase].v == None)
    {
      var i := FileIndex(p).value;
      assert File()[i].pos == p;
      CellTime(i);
    }

    /** The file covers no position that was not fed, and its break list grows. */
    lemma {:induction false} FileIsBehind()
      requires Valid() && started
      ensures streamStart.Some? && streamStart.value <= StreamEnd() <= cursor == nextPos
      ensures Growing(breaks)
    {
      if streamStart.value < StreamEnd() {
        FileIndexAt(StreamEnd() - 1);
      }
    }

    /** The file's sample at `FileIndex(p)` is stream sample `p`, for every position the
        file covers (a position that never reached the cutter is a skipped zero). */
    lemma {:induction false} FileIndexLaw()
      requires Valid() && started
      ensures forall p :: streamStart.value <= p < StreamEnd() ==>
                && FileIndex(p).Some? && 0 <= FileIndex(p).value < |File()| && p < |stream|
                && (File()[FileIndex(p).value] == CellOf(stream[p], p)
                    || File()[FileIndex(p).value] == Skipped(p))
    {
      hide Valid, FileIndex, File;
      Shape();
      forall p | streamStart.value <= p < StreamEnd()
        ensures && FileIndex(p).Some? && 0 <= FileIndex(p).value < |File()| && p < |stream|
                && (File()[FileIndex(p).value] == CellOf(stream[p], p)
                    || File()[FileIndex(p).value] == Skipped(p))
      {
        FileIndexAt(p);
      }
    }

    /** `FileIndex` is strictly increasing, however many breaks share a position. */
    lemma {:induction false} FileIndexIncreases(p: nat, q: nat)
      requires Valid() && started && p < q
      ensures FileIndex(p).Some? && FileIndex(q).Some?
      ensures FileIndex(p).value < FileIndex(q).value
    {
      ZerosMonotone(breaks, zerosTotal, StreamEnd(), p, q);
    }

    /** Every cell of the file is a loss, or the cell of the position mapped to it. */
    lemma {:induction false} FileIndexCovers(i: nat)
      requires Valid() && started && i < |File()| && !File()[i].Lost?
      ensures streamStart.value <= File()[i].pos < StreamEnd()
      ensures FileIndex(File()[i].pos) == Some(i)
    {
      CellTime(i);
    }

    /** What a run is reported as, by what happened and what its file holds: recorded exactly
        when it came to its full length by itself and the file is made of samples alone. */
    lemma {:induction false} StatusIff()
      requires Valid()
      ensures FileStatus() == Pending <==> !started && !done
      ensures FileStatus() == Missed <==> !started && done
      ensures FileStatus() == Recording <==> started && !done
      ensures FileStatus() == Recorded <==>
        && started && done && reason == None && |File()| == spec.nSamples
        && forall i :: 0 <= i < |File()| ==> File()[i].Got?
      ensures started ==> lost == |set i: nat | i < |File()| && !File()[i].Got?|
    {
      FillCountIs(File());
    }

    /** A run reported as recorded is one contiguous stretch of the stream, with every
        sample in place and nothing filled in. */
    lemma {:induction false} RecordedIsContiguous()
      requires Valid() && FileStatus() == Recorded
      ensures gaps == [] && |File()| == spec.nSamples
      ensures forall i :: 0 <= i < |File()| ==> IsStreamSample(i)
    {
      NoFills(Books(), full, spec.nSamples, streamStart.value, cursor);
      forall i | 0 <= i < |File()|
        ensures IsStreamSample(i)
      {
        RecordedAt(i);
      }
    }

    /** File index `i` holds the `i`-th stream sample from the start position. */
    ghost predicate IsStreamSample(i: nat)
      requires streamStart.Some?
      reads this
    {
      var p := streamStart.value + i;
      i < |File()| && p < |stream| && stream[p].v.Some? && File()[i] == Got(p, stream[p].v.value)
    }

    lemma {:induction false} RecordedAt(i: nat)
      requires Valid() && FileStatus() == Recorded
      requires i < |File()| && breaks == [] && zerosTotal == 0 && File()[i].Got?
      ensures streamStart.Some? && IsStreamSample(i)
    {
      hide Valid, File, BookOk;
      Shape();
      var p := streamStart.value + i;
      assert FileIndex(p) == Some(i);
      FileIndexAt(p);
    }

    /** No loss was hidden from the cutter at a position it had to place: none inside a
        stretch read back from the ring, or inside one that never reached it. */
    ghost predicate NothingHidden()
      requires Valid() && started
      reads this
    {
      forall k :: && 0 <= k < |view|
                  && (streamStart.value < viewBase + k || firstChunk <= viewBase + k)
                  && (viewBase + k < firstChunk || viewBase + k < StreamEnd())
                  ==> view[k].lost == stream[viewBase + k].lost
    }

    /** File index equals time from the requested start. */
    ghost predicate TimeExact()
      requires Valid() && started
      reads this
    {
      forall p :: streamStart.value <= p < StreamEnd() && p < |stream| ==>
        FileIndex(p).value == TimeOf(stream, p) - TrueOrigin()
    }

    /** The time law. For any run of chunks with arbitrary receive gaps, file index
        equals time from the requested start for every sample in the file, exactly when
        no loss was hidden from the cutter (or no sample was written at all). */
    lemma {:induction false} TimeLaw()
      requires Valid() && started
      ensures TimeExact() <==> StreamEnd() == streamStart.value || NothingHidden()
    {
      assert streamStart.value <= StreamEnd();
      if streamStart.value < StreamEnd() {
        if TimeExact() {
          ExactHidesNothing();
        }
        if NothingHidden() {
          NothingHiddenIsExact();
        }
      }
    }

    lemma {:induction false} Shape()
      requires Valid() && started
      ensures viewBase <= firstChunk <= viewBase + |view| == |stream|
      ensures Knows(view, viewBase, stream)
      ensures streamStart.Some? && streamStart.value <= StreamEnd()
      ensures written == |File()|
    {
    }

    lemma {:induction false} PlacedAt(p: nat)
      requires Valid() && started && streamStart.value <= p < StreamEnd()
      ensures viewBase <= p < |stream|
      ensures FileIndex(p).value == TimeOf(stream, p) - TrueOrigin()
              <==> Hidden(view, viewBase, stream, p + 1 - viewBase)
                   == Hidden(view, viewBase, stream, firstChunk - viewBase)
    {
      hide Valid, FileIndex, LossBelow;
      FileIndexAt(p);
      Shape();
    }

    lemma {:induction false} ExactHidesNothing()
      requires Valid() && started && streamStart.value < StreamEnd() && TimeExact()
      ensures NothingHidden()
    {
      hide Valid, TimeExact, Knows;
      Shape();
      ExactBelow();
      ExactAbove();
    }

    lemma {:induction false} ExactBelow()
      requires Valid() && started && streamStart.value < StreamEnd() && TimeExact()
      ensures viewBase <= streamStart.value
      ensures forall k :: streamStart.value + 1 - viewBase <= k < firstChunk - viewBase ==>
                view[k].lost == stream[viewBase + k].lost
    {
      hide Valid, FileIndex, TimeOf, TrueOrigin, LossBelow, Hidden;
      Shape();
      PlacedAt(streamStart.value);
      if streamStart.value < firstChunk {
        HiddenFlat(view, viewBase, stream, streamStart.value + 1 - viewBase, firstChunk - viewBase);
      }
    }

    lemma {:induction false} ExactAbove()
      requires Valid() && started && streamStart.value < StreamEnd() && TimeExact()
      ensures viewBase < StreamEnd() <= |stream|
      ensures forall k :: firstChunk - viewBase <= k < StreamEnd() - viewBase ==>
                view[k].lost == stream[viewBase + k].lost
    {
      hide Valid, FileIndex, TimeOf, TrueOrigin, LossBelow, Hidden;
      Shape();
      PlacedAt(StreamEnd() - 1);
      if firstChunk < StreamEnd() {
        HiddenFlat(view, viewBase, stream, firstChunk - viewBase, StreamEnd() - viewBase);
      }
    }

    lemma {:induction false} NothingHiddenIsExact()
      requires Valid() && started && NothingHidden()
      ensures TimeExact()
    {
      forall p | streamStart.value <= p < StreamEnd() && p < |stream|
        ensures FileIndex(p).value == TimeOf(stream, p) - TrueOrigin()
      {
        ExactAt(p);
      }
    }

    lemma {:induction false} ExactAt(p: nat)
      requires Valid() && started && NothingHidden()
      requires streamStart.value <= p < StreamEnd() && p < |stream|
      ensures FileIndex(p).value == TimeOf(stream, p) - TrueOrigin()
    {
      hide Valid, FileIndex, TimeOf, TrueOrigin, LossBelow, Hidden;
      Shape();
      PlacedAt(p);
      var c0 := firstChunk - viewBase;
      if p < firstChunk {
        HiddenFlat(view, viewBase, stream, p + 1 - viewBase, c0);
      } else {
        HiddenFlat(view, viewBase, stream, c0, p + 1 - viewBase);
      }
    }
  }

  // ---------- hidden losses ----------

  /** Losses below view index `k` that the cutter does not know of. */
  function Hidden<T>(view: seq<Slot<T>>, base: nat, stream: seq<Slot<T>>, k: nat): int
    requires |stream| == base + |view| && k <= |view|
  {
    LossBelow(stream, base + k) - LossBelow(view, k)
  }

  /** Hidden losses do not change over a stretch exactly when none is hidden there. */
  lemma {:induction false} HiddenFlat<T>(view: seq<Slot<T>>, base: nat, stream: seq<Slot<T>>, a: nat, b: nat)
    requires Knows(view, base, stream) && a <= b <= |view|
    ensures Hidden(view, base, stream, a) <= Hidden(view, base, stream, b)
    ensures Hidden(view, base, stream, a) == Hidden(view, base, stream, b)
            <==> forall k :: a <= k < b ==> view[k].lost == stream[base + k].lost
    decreases b
  {
    if a < b {
      HiddenFlat(view, base, stream, a, b - 1);
    }
  }

  /** The time law can fail: a run that starts before the current chunk, on a ring
      stretch with a receive gap inside it. The gap was logged before an earlier chunk,
      so the run's samples before it sit at the wrong time. */
  method LateStartOverGap() returns (cutter: RunCutter<int>)
    ensures cutter.Valid() && cutter.started && cutter.StreamEnd() == 3
    ensures !cutter.TimeExact()
  {
    hide BookOk, Laid, Axis, ChunkSlots, PlainSlots, LossBelow, Knows, WindowFrom, Carries;
    var ring := new CircularBuffer<int>(4);
    ring.Write([5, 6, 7]);
    var spec := RunSpec(0, 3, 1.0, 0.0);
    cutter := new RunCutter<int>(spec);
    ghost var past := [Slot(0, Some(5)), Slot(3, Some(6))];
    assert ring.history == Samples(past) + [7];
    assert StartOffset(spec, 2.0) == -2 by { assert ExactOffset(spec, 2.0) == -2.0; }
    var ops := cutter.Feed([7], 2, 2.0, [], 0.0, ring, past);
    LateCutter(cutter, past);
  }

  lemma {:induction false} LateCutter(cutter: RunCutter<int>, past: seq<Slot<int>>)
    requires past == [Slot(0, Some(5)), Slot(3, Some(6))]
    requires cutter.spec == RunSpec(0, 3, 1.0, 0.0) && StartOffset(cutter.spec, 2.0) == -2
    requires cutter.Valid() && cutter.started && cutter.Begun([7], 2, 2.0, [], 0, past)
    ensures cutter.StreamEnd() == 3 && !cutter.TimeExact()
  {
    hide BookOk, PositionLaw, Axis, ChunkSlots, PlainSlots, LossBelow;
    assert Samples(past)[0..] == [5, 6];
    LateView(Samples(past)[0..]);
    assert cutter.viewBase == 0 && |cutter.full| == 3;
    LateBook(cutter);
    assert cutter.view[1].lost == 0 && cutter.stream[1].lost == 3;
    cutter.TimeLaw();
  }

  lemma {:induction false} LateBook(cutter: RunCutter<int>)
    requires cutter.Valid() && cutter.started && |cutter.full| == 3 == cutter.spec.nSamples
    ensures cutter.StreamEnd() == cutter.cursor
  {
  }

  lemma {:induction false} LateView(held: seq<int>)
    requires held == [5, 6]
    ensures var view := PlainSlots(held) + ChunkSlots([7], []);
      LossBelow(view, 2) == 0 && |Axis(view, 0)| == 3 && view[1].lost == 0
  {
    var view := PlainSlots(held) + ChunkSlots([7], []);
    assert view == PlainSlots([5, 6, 7]);
    AxisPlain([5, 6, 7], 0);
    assert LossBelow(view, 1) == 0;
  }

  lemma {:induction false} LaidEnd<T>(chunk: seq<T>, pos: int, from: nat)
    requires from <= |chunk|
    ensures Laid(chunk, pos, from, []) == Gots(chunk[from..], pos + from)
  {
  }

  lemma {:induction false} LaidNext<T>(full: seq<Cell<T>>, chunk: seq<T>, pos: int, from: nat, gaps: seq<Gap>)
    requires from <= |chunk| && GapsOk(gaps, |chunk|) && gaps != []
    ensures full + Laid(chunk, pos, from, gaps)
         == if gaps[0].off <= from then full + Laid(chunk, pos, from, gaps[1..])
            else full + Gots(chunk[from..gaps[0].off], pos + from) + Losts(gaps[0].lost)
                 + Laid(chunk, pos, gaps[0].off, gaps[1..])
  {
  }
}
