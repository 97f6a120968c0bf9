/**
 A lossy sample stream laid out on its true time axis.

 Samples are numbered by stream position. Reception losses do not use up
 positions: `lost` samples are missing right before the position that follows
 them. The time of position `p` is therefore `p` plus everything lost at or before
 `p`. A run file, a recording and a scheduled cut all promise that their file index
 advances like this time and not like the stream position.
 */
module Timeline {
  import opened Wrappers

  /** A receive gap: `lost` samples are missing right before `chunk[off]`. */
  datatype Gap = Gap(off: nat, lost: nat)

  /** One file cell: the stream sample at a position, a stream position that never
      reached the consumer, or a sample lost in reception. The last two are zeros. */
  datatype Cell<+T> = Got(pos: int, v: T) | Skipped(pos: int) | Lost

  /** One stream position: what was lost right before it, and its sample (`None` when
      the position passed without reaching the consumer). */
  datatype Slot<+T> = Slot(lost: nat, v: Option<T>)

  /** The receiver reports a chunk's gaps at strictly increasing offsets inside it. */
  ghost predicate GapsOk(gaps: seq<Gap>, n: nat) {
    && (forall i, j :: 0 <= i < j < |gaps| ==> gaps[i].off < gaps[j].off)
    && (forall i :: 0 <= i < |gaps| ==> gaps[i].off < n)
  }

  /** Everything lost in a list of gaps. */
  function TotalLost(gaps: seq<Gap>): nat {
    if gaps == [] then 0 else TotalLost(gaps[..|gaps| - 1]) + gaps[|gaps| - 1].lost
  }

  lemma {:induction false} TotalLostFirst(gaps: seq<Gap>)
    requires gaps != []
    ensures TotalLost(gaps) == gaps[0].lost + TotalLost(gaps[1..])
  {
    if 1 < |gaps| {
      var k := |gaps| - 1;
      TotalLostFirst(gaps[..k]);
      assert gaps[..k][1..] == gaps[1..][..k - 1];
    }
  }

  // ---------- cell sequences ----------

  function Losts<T>(n: nat): seq<Cell<T>> {
    seq(n, _ => Lost)
  }

  function Skips<T>(n: nat, pos: int): seq<Cell<T>> {
    seq(n, i => Skipped(pos + i))
  }

  function Gots<T>(data: seq<T>, pos: int): seq<Cell<T>> {
    seq(|data|, i requires 0 <= i < |data| => Got(pos + i, data[i]))
  }

  function Cap<T>(s: seq<T>, n: nat): seq<T> {
    if |s| <= n then s else s[..n]
  }

  function CellOf<T>(s: Slot<T>, pos: int): Cell<T> {
    match s.v
    case Some(v) => Got(pos, v)
    case None => Skipped(pos)
  }

  // ---------- the time axis ----------

  /** The stream `slots`, whose first position is `base`, cell by cell in time. */
  function Axis<T>(slots: seq<Slot<T>>, base: int): seq<Cell<T>> {
    if slots == [] then []
    else
      var k := |slots| - 1;
      Axis(slots[..k], base) + Losts(slots[k].lost) + [CellOf(slots[k], base + k)]
  }

  /** Everything lost at or before the `k`-th position of `slots`, `k` excluded. */
  function LossBelow<T>(slots: seq<Slot<T>>, k: nat): nat
    requires k <= |slots|
  {
    if k == 0 then 0 else LossBelow(slots, k - 1) + slots[k - 1].lost
  }

  /** Time of the `k`-th position, counted from just before the first slot's losses. */
  function TimeOf<T>(slots: seq<Slot<T>>, k: nat): nat
    requires k < |slots|
  {
    k + LossBelow(slots, k + 1)
  }

  lemma {:induction false} LossBelowPrefix<T>(s: seq<Slot<T>>, t: seq<Slot<T>>, k: nat)
    requires k <= |s| && k <= |t|
    requires s[..k] == t[..k]
    ensures LossBelow(s, k) == LossBelow(t, k)
  {
    if k > 0 {
      assert s[..k - 1] == s[..k][..k - 1] && t[..k - 1] == t[..k][..k - 1];
      assert s[k - 1] == s[..k][k - 1] && t[k - 1] == t[..k][k - 1];
      LossBelowPrefix(s, t, k - 1);
    }
  }

  lemma {:induction false} AxisLength<T>(slots: seq<Slot<T>>, base: int)
    ensures |Axis(slots, base)| == |slots| + LossBelow(slots, |slots|)
  {
    if slots != [] {
      var n := |slots| - 1;
      AxisLength(slots[..n], base);
      LossBelowPrefix(slots[..n], slots, n);
    }
  }

  /** The axis holds each position's cell at its time ... */
  lemma {:induction false} AxisAtTime<T>(slots: seq<Slot<T>>, base: int, k: nat)
    requires k < |slots|
    ensures TimeOf(slots, k) < |Axis(slots, base)|
    ensures Axis(slots, base)[TimeOf(slots, k)] == CellOf(slots[k], base + k)
  {
    var n := |slots| - 1;
    AxisLength(slots[..n], base);
    LossBelowPrefix(slots[..n], slots, n);
    if k < n {
      LossBelowPrefix(slots[..n], slots, k + 1);
      AxisAtTime(slots[..n], base, k);
    }
  }

  /** ... and nothing else but losses. */
  lemma {:induction false} AxisOnlyAtTime<T>(slots: seq<Slot<T>>, base: int, i: nat)
    requires i < |Axis(slots, base)| && !Axis(slots, base)[i].Lost?
    ensures 0 <= Axis(slots, base)[i].pos - base < |slots|
    ensures i == TimeOf(slots, Axis(slots, base)[i].pos - base)
  {
    var n := |slots| - 1;
    AxisLength(slots[..n], base);
    LossBelowPrefix(slots[..n], slots, n);
    if i < |Axis(slots[..n], base)| {
      AxisOnlyAtTime(slots[..n], base, i);
      var k := Axis(slots, base)[i].pos - base;
      LossBelowPrefix(slots[..n], slots, k + 1);
    }
  }

  lemma {:induction false} AxisConcat<T>(a: seq<Slot<T>>, b: seq<Slot<T>>, base: int)
    ensures Axis(a + b, base) == Axis(a, base) + Axis(b, base + |a|)
    decreases |b|
  {
    if b == [] {
      assert a + b == a;
    } else {
      var k := |b| - 1;
      AxisConcat(a, b[..k], base);
      assert (a + b)[..|a + b| - 1] == a + b[..k];
    }
  }

  // ---------- chunks as slots ----------

  /** A chunk's samples, each gap's loss right before the sample it precedes. */
  function ChunkSlots<T>(chunk: seq<T>, gaps: seq<Gap>): (r: seq<Slot<T>>)
    ensures |r| == |chunk|
    ensures forall k :: 0 <= k < |chunk| ==> r[k].v == Some(chunk[k])
  {
    if gaps == [] then PlainSlots(chunk)
    else
      var rest := ChunkSlots(chunk, gaps[1..]);
      var off := gaps[0].off;
      if off < |chunk| then rest[off := Slot(rest[off].lost + gaps[0].lost, rest[off].v)] else rest
  }

  /** Samples lost right before the chunk's first sample. */
  function Before(gaps: seq<Gap>): nat {
    if gaps == [] then 0
    else (if gaps[0].off <= 0 then gaps[0].lost else 0) + Before(gaps[1..])
  }

  lemma {:induction false} SlotWithoutGap<T>(chunk: seq<T>, gaps: seq<Gap>, k: nat)
    requires k < |chunk|
    requires forall i :: 0 <= i < |gaps| ==> gaps[i].off != k
    ensures ChunkSlots(chunk, gaps)[k] == Slot(0, Some(chunk[k]))
  {
    if gaps != [] {
      SlotWithoutGap(chunk, gaps[1..], k);
    }
  }

  lemma {:induction false} FirstSlot<T>(chunk: seq<T>, gaps: seq<Gap>)
    requires chunk != []
    ensures ChunkSlots(chunk, gaps)[0] == Slot(Before(gaps), Some(chunk[0]))
  {
    if gaps != [] {
      FirstSlot(chunk, gaps[1..]);
    }
  }

  /** Samples received with no known loss between them. */
  function PlainSlots<T>(data: seq<T>): seq<Slot<T>> {
    seq(|data|, o requires 0 <= o < |data| => Slot(0, Some(data[o])))
  }

  /** Positions that passed without reaching the consumer. */
  function MissedSlots<T>(n: nat): seq<Slot<T>> {
    seq(n, _ => Slot(0, None))
  }

  lemma {:induction false} AxisPlain<T>(data: seq<T>, base: int)
    ensures Axis(PlainSlots(data), base) == Gots(data, base)
  {
    if data != [] {
      var k := |data| - 1;
      AxisPlain(data[..k], base);
      assert PlainSlots(data)[..k] == PlainSlots(data[..k]);
      assert Gots(data, base) == Gots(data[..k], base) + [Got(base + k, data[k])];
    }
  }

  lemma {:induction false} AxisMissed<T>(n: nat, base: int)
    ensures Axis(MissedSlots<T>(n), base) == Skips<T>(n, base)
  {
    if n > 0 {
      AxisMissed<T>(n - 1, base);
      assert MissedSlots<T>(n)[..n - 1] == MissedSlots<T>(n - 1);
      assert Skips<T>(n, base) == Skips<T>(n - 1, base) + [Skipped(base + n - 1)];
    }
  }

  /** Chunk samples from `start` on, laid out with the gaps strictly after `start`. */
  function Laid<T>(chunk: seq<T>, pos: int, start: nat, gaps: seq<Gap>): seq<Cell<T>>
    requires start <= |chunk|
    requires forall i :: 0 <= i < |gaps| ==> gaps[i].off <= |chunk|
    decreases |gaps|
  {
    if gaps == [] then Gots(chunk[start..], pos + start)
    else if gaps[0].off <= start then Laid(chunk, pos, start, gaps[1..])
    else Gots(chunk[start..gaps[0].off], pos + start) + Losts(gaps[0].lost)
         + Laid(chunk, pos, gaps[0].off, gaps[1..])
  }

  /** A chunk's slots from `start` on, without the losses right before `start`. */
  function Headless<T>(chunk: seq<T>, gaps: seq<Gap>, start: nat): seq<Slot<T>>
    requires start <= |chunk|
  {
    if start == |chunk| then []
    else [Slot(0, Some(chunk[start]))] + SlotsAfter(chunk, gaps, start)
  }

  function SlotsAfter<T>(chunk: seq<T>, gaps: seq<Gap>, k: nat): seq<Slot<T>>
    requires k < |chunk|
  {
    ChunkSlots(chunk, gaps)[k + 1..]
  }

  /** Laying a chunk out gap by gap gives its part of the time axis. */
  lemma {:induction false} LaidIsAxis<T>(chunk: seq<T>, pos: int, start: nat, gaps: seq<Gap>)
    requires start <= |chunk| && GapsOk(gaps, |chunk|)
    ensures Laid(chunk, pos, start, gaps) == Axis(Headless(chunk, gaps, start), pos + start)
    decreases |gaps|
  {
    hide Axis, Gots, Losts, ChunkSlots, PlainSlots, Headless;
    if gaps == [] {
      HeadlessNoGaps(chunk, start);
      AxisPlain(chunk[start..], pos + start);
    } else if gaps[0].off <= start {
      LaidIsAxis(chunk, pos, start, gaps[1..]);
      HeadlessPastGap(chunk, gaps, start);
    } else {
      LaidIsAxis(chunk, pos, gaps[0].off, gaps[1..]);
      LaidStep(chunk, pos, start, gaps);
    }
  }

  lemma {:induction false} LaidStep<T>(chunk: seq<T>, pos: int, start: nat, gaps: seq<Gap>)
    requires GapsOk(gaps, |chunk|) && gaps != [] && start < gaps[0].off
    requires Laid(chunk, pos, gaps[0].off, gaps[1..]) == Axis(Headless(chunk, gaps[1..], gaps[0].off), pos + gaps[0].off)
    ensures Laid(chunk, pos, start, gaps) == Axis(Headless(chunk, gaps, start), pos + start)
  {
    hide Axis, Gots, Losts, ChunkSlots, PlainSlots, Headless;
    AxisUpToGap(chunk, pos, gaps, start);
  }

  lemma {:induction false} HeadlessNoGaps<T>(chunk: seq<T>, start: nat)
    requires start <= |chunk|
    ensures Headless(chunk, [], start) == PlainSlots(chunk[start..])
  {
  }

  lemma {:induction false} HeadlessPastGap<T>(chunk: seq<T>, gaps: seq<Gap>, start: nat)
    requires start <= |chunk| && gaps != [] && gaps[0].off <= start
    ensures Headless(chunk, gaps, start) == Headless(chunk, gaps[1..], start)
  {
  }

  lemma {:induction false} AxisUpToGap<T>(chunk: seq<T>, pos: int, gaps: seq<Gap>, start: nat)
    requires GapsOk(gaps, |chunk|) && gaps != [] && start < gaps[0].off
    ensures Axis(Headless(chunk, gaps, start), pos + start)
         == Gots(chunk[start..gaps[0].off], pos + start) + Losts(gaps[0].lost)
            + Axis(Headless(chunk, gaps[1..], gaps[0].off), pos + gaps[0].off)
  {
    hide Axis, Gots, Losts, ChunkSlots, PlainSlots, SlotsAfter;
    var off, lost, v := gaps[0].off, gaps[0].lost, Some(chunk[gaps[0].off]);
    HeadlessSplit(chunk, gaps, start);
    AxisPlainThenGap(chunk[start..off], pos + start, lost, v, SlotsAfter(chunk, gaps[1..], off));
  }

  lemma {:induction false} AxisPlainThenGap<T>(data: seq<T>, base: int, lost: nat, v: Option<T>, rest: seq<Slot<T>>)
    ensures Axis(PlainSlots(data) + ([Slot(lost, v)] + rest), base)
         == Gots(data, base) + Losts(lost) + Axis([Slot(0, v)] + rest, base + |data|)
  {
    hide Axis, Gots, Losts;
    AxisConcat(PlainSlots(data), [Slot(lost, v)] + rest, base);
    AxisPlain(data, base);
    AxisHead(lost, v, rest, base + |data|);
    SeqAssoc(Gots(data, base), Losts<T>(lost), Axis([Slot(0, v)] + rest, base + |data|));
  }

  lemma {:induction false} SeqAssoc<T>(a: seq<T>, b: seq<T>, c: seq<T>)
    ensures (a + b) + c == a + (b + c)
  {
  }

  /** Up to the first gap after `start` there are plain samples only. */
  lemma {:induction false} HeadlessSplit<T>(chunk: seq<T>, gaps: seq<Gap>, start: nat)
    requires GapsOk(gaps, |chunk|) && gaps != [] && start < gaps[0].off
    ensures Headless(chunk, gaps, start)
         == PlainSlots(chunk[start..gaps[0].off])
            + ([Slot(gaps[0].lost, Some(chunk[gaps[0].off]))] + SlotsAfter(chunk, gaps[1..], gaps[0].off))
  {
    hide ChunkSlots, PlainSlots;
    PlainStretch(chunk, gaps, start);
    CutAt(ChunkSlots(chunk, gaps), start + 1, gaps[0].off);
    AfterGap(chunk, gaps);
  }

  lemma {:induction false} AfterGap<T>(chunk: seq<T>, gaps: seq<Gap>)
    requires GapsOk(gaps, |chunk|) && gaps != []
    ensures var off := gaps[0].off;
      && ChunkSlots(chunk, gaps)[off] == Slot(gaps[0].lost, Some(chunk[off]))
      && ChunkSlots(chunk, gaps)[off + 1..] == ChunkSlots(chunk, gaps[1..])[off + 1..]
  {
    SlotWithoutGap(chunk, gaps[1..], gaps[0].off);
  }

  lemma {:induction false} CutAt<T>(s: seq<T>, a: nat, b: nat)
    requires a <= b < |s|
    ensures s[a..] == s[a..b] + ([s[b]] + s[b + 1..])
  {
  }

  lemma {:induction false} PlainStretch<T>(chunk: seq<T>, gaps: seq<Gap>, start: nat)
    requires GapsOk(gaps, |chunk|) && gaps != [] && start < gaps[0].off
    ensures PlainSlots(chunk[start..gaps[0].off])
         == [Slot(0, Some(chunk[start]))] + ChunkSlots(chunk, gaps)[start + 1..gaps[0].off]
  {
    var off := gaps[0].off;
    forall k | start < k < off
      ensures ChunkSlots(chunk, gaps)[k] == Slot(0, Some(chunk[k]))
    {
      SlotWithoutGap(chunk, gaps, k);
    }
  }

  /** The losses before a stretch's first position come first on its axis. */
  lemma {:induction false} AxisHead<T>(lost: nat, v: Option<T>, rest: seq<Slot<T>>, base: int)
    ensures Axis([Slot(lost, v)] + rest, base) == Losts<T>(lost) + Axis([Slot(0, v)] + rest, base)
  {
    var s, h := Slot(lost, v), Slot(0, v);
    AxisConcat([s], rest, base);
    AxisConcat([h], rest, base);
    AxisOne(s, base);
    AxisOne(h, base);
    assert CellOf(s, base) == CellOf(h, base);
    SeqAssoc(Losts<T>(lost), [CellOf(s, base)], Axis(rest, base + 1));
  }

  lemma {:induction false} AxisOne<T>(s: Slot<T>, base: int)
    ensures Axis([s], base) == Losts<T>(s.lost) + [CellOf(s, base)]
  {
    assert [s][..0] == [];
  }

  /** The losses right before a chunk, then the chunk laid out. */
  lemma {:induction false} LaidWholeChunk<T>(chunk: seq<T>, pos: int, gaps: seq<Gap>)
    requires GapsOk(gaps, |chunk|)
    ensures Losts<T>(Before(gaps)) + Laid(chunk, pos, 0, gaps) == Axis(ChunkSlots(chunk, gaps), pos)
  {
    hide Axis, Gots, Laid;
    LaidIsAxis(chunk, pos, 0, gaps);
    if chunk != [] {
      FirstSlot(chunk, gaps);
      hide ChunkSlots, Before;
      var rest := ChunkSlots(chunk, gaps)[1..];
      AxisHead(Before(gaps), Some(chunk[0]), rest, pos);
      assert ChunkSlots(chunk, gaps) == [Slot(Before(gaps), Some(chunk[0]))] + rest;
    } else {
      assert gaps == [] && ChunkSlots(chunk, gaps) == [];
    }
  }
}
