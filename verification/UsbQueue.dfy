/**
 The RTL-SDR receiver's lossy queue (`capture/rtlsdr_receiver.py`): a USB thread that
 queues blocks or drops them, and a consumer that fills chunks. `delivered` is every byte
 the device ever delivered; every sample handed out is one of its samples, at the index
 that the samples handed out before it and the losses reported up to it add up to.
 */
module UsbQueue {
  import opened Timeline
  import opened Wrappers

  const QUEUE_BLOCKS := 64

  newtype byte = x: int | 0 <= x < 256

  // ---------- conversion ----------

  /** A value stored in 16 bits, as two's complement. */
  function Int16(x: int): int {
    (x + 32768) % 65536 - 32768
  }

  /** One component, with every step in 16 bits. */
  function ToSc16(u: byte): (r: int) {
    Int16(Int16(Int16(u as int * 2) - 255) * 128)
  }

  /** No step wraps; the range is symmetric and the conversion reverses nothing. */
  lemma {:induction false} ConversionIsExact(u: byte, v: byte)
    ensures ToSc16(u) == (2 * u as int - 255) * 128
    ensures -32640 <= ToSc16(u) <= 32640 && ToSc16(255 - u) == -ToSc16(u)
    ensures u < v ==> ToSc16(u) < ToSc16(v)
  {
    ConversionDoesNotWrap(u);
    ConversionDoesNotWrap(v);
    ConversionDoesNotWrap(255 - u);
  }

  lemma {:induction false} ConversionDoesNotWrap(u: byte)
    ensures ToSc16(u) == (2 * u as int - 255) * 128
  {
    assert Int16(u as int * 2) == u as int * 2;
    assert Int16(u as int * 2 - 255) == u as int * 2 - 255;
  }

  datatype Sc16 = Sc16(i: int, q: int)

  /** Sample `n` of a byte stream. */
  function SampleAt(bytes: seq<byte>, n: nat): Sc16
    requires 2 * n + 1 < |bytes|
  {
    Sc16(ToSc16(bytes[2 * n]), ToSc16(bytes[2 * n + 1]))
  }

  // ---------- losses of a chunk ----------

  /** What was lost at or before sample `k` of a chunk. */
  function LostUpTo(gaps: seq<Gap>, k: int): nat {
    if gaps == [] then 0
    else
      var g := gaps[|gaps| - 1];
      LostUpTo(gaps[..|gaps| - 1], k) + (if g.off <= k then g.lost else 0)
  }

  lemma {:induction false} LostUpToAll(gaps: seq<Gap>, k: int)
    requires forall i :: 0 <= i < |gaps| ==> gaps[i].off <= k
    ensures LostUpTo(gaps, k) == TotalLost(gaps)
  {
    if gaps == [] {
    } else {
      LostUpToAll(gaps[..|gaps| - 1], k);
    }
  }

  lemma {:induction false} LostUpToSnoc(gaps: seq<Gap>, g: Gap, k: int)
    ensures LostUpTo(gaps + [g], k) == LostUpTo(gaps, k) + (if g.off <= k then g.lost else 0)
    ensures TotalLost(gaps + [g]) == TotalLost(gaps) + g.lost
  {
    assert (gaps + [g])[..|gaps|] == gaps;
  }

  // ---------- the queue against what was delivered ----------

  /** A queued block: its bytes, when its last one came, and the bytes dropped before it. */
  datatype Block = Block(data: seq<byte>, arrived: real, dropped: nat)

  /** From byte `at` on, `d` is the queued blocks, each behind the bytes dropped before
      it, and then `tail` dropped bytes. */
  ghost predicate Follows(d: seq<byte>, at: nat, blocks: seq<Block>, tail: nat)
    decreases |blocks|
  {
    if blocks == [] then at + tail == |d|
    else
      var b := blocks[0];
      var from := at + b.dropped;
      && b.dropped % 2 == 0 && |b.data| % 2 == 0 && 0 < |b.data|
      && from + |b.data| <= |d| && d[from..from + |b.data|] == b.data
      && Follows(d, from + |b.data|, blocks[1..], tail)
  }

  lemma {:induction false} FollowsBounds(d: seq<byte>, at: nat, blocks: seq<Block>, tail: nat)
    requires Follows(d, at, blocks, tail)
    ensures at + tail <= |d|
    decreases |blocks|
  {
    if blocks == [] {
    } else {
      FollowsBounds(d, at + blocks[0].dropped + |blocks[0].data|, blocks[1..], tail);
    }
  }

  /** A dropped block. */
  lemma {:induction false} FollowsDrop(d: seq<byte>, at: nat, blocks: seq<Block>, tail: nat, more: seq<byte>)
    requires Follows(d, at, blocks, tail)
    ensures Follows(d + more, at, blocks, tail + |more|)
    decreases |blocks|
  {
    if blocks == [] {
    } else {
      var from := at + blocks[0].dropped;
      var to := from + |blocks[0].data|;
      assert (d + more)[from..to] == d[from..to];
      FollowsDrop(d, to, blocks[1..], tail, more);
    }
  }

  /** A queued block takes what was dropped before it along. */
  lemma {:induction false} FollowsQueue(d: seq<byte>, at: nat, blocks: seq<Block>, tail: nat, b: Block)
    requires Follows(d, at, blocks, tail) && b.dropped == tail && tail % 2 == 0 && WholeSamples(b.data)
    ensures Follows(d + b.data, at, blocks + [b], 0)
    decreases |blocks|
  {
    if blocks == [] {
      assert (blocks + [b])[1..] == [];
      assert (d + b.data)[|d|..|d| + |b.data|] == b.data;
    } else {
      FollowsHead(d, at, blocks, tail);
      var from := at + blocks[0].dropped;
      var to := from + |blocks[0].data|;
      FollowsQueue(d, to, blocks[1..], tail, b);
      FollowsCons(d, d + b.data, at, blocks, [b]);
    }
  }

  lemma {:induction false} FollowsCons(d: seq<byte>, d': seq<byte>, at: nat, blocks: seq<Block>, more: seq<Block>)
    requires blocks != [] && blocks[0].dropped % 2 == 0 && WholeSamples(blocks[0].data) && d <= d'
    requires at + blocks[0].dropped + |blocks[0].data| <= |d|
    requires d[at + blocks[0].dropped..at + blocks[0].dropped + |blocks[0].data|] == blocks[0].data
    requires Follows(d', at + blocks[0].dropped + |blocks[0].data|, blocks[1..] + more, 0)
    ensures Follows(d', at, blocks + more, 0)
  {
    var from := at + blocks[0].dropped;
    assert (blocks + more)[1..] == blocks[1..] + more && (blocks + more)[0] == blocks[0];
    assert d'[from..from + |blocks[0].data|] == d[from..from + |blocks[0].data|];
  }

  lemma {:induction false} FollowsHead(d: seq<byte>, at: nat, blocks: seq<Block>, tail: nat)
    requires blocks != [] && Follows(d, at, blocks, tail)
    ensures blocks[0].dropped % 2 == 0 && WholeSamples(blocks[0].data)
    ensures at + blocks[0].dropped + |blocks[0].data| <= |d|
    ensures d[at + blocks[0].dropped..at + blocks[0].dropped + |blocks[0].data|] == blocks[0].data
    ensures Follows(d, at + blocks[0].dropped + |blocks[0].data|, blocks[1..], tail)
  {
  }

  function BytesOf(blocks: seq<Block>): nat {
    if blocks == [] then 0 else blocks[0].dropped + |blocks[0].data| + BytesOf(blocks[1..])
  }

  /** Everything delivered is handed out, waiting, or dropped, and nothing twice. */
  lemma {:induction false} Conservation(d: seq<byte>, at: nat, blocks: seq<Block>, tail: nat)
    requires Follows(d, at, blocks, tail)
    ensures |d| == at + BytesOf(blocks) + tail
    decreases |blocks|
  {
    if blocks == [] {
    } else {
      Conservation(d, at + blocks[0].dropped + |blocks[0].data|, blocks[1..], tail);
    }
  }

  predicate WholeSamples(data: seq<byte>) {
    0 < |data| && |data| % 2 == 0
  }

  // ---------- a chunk against what was delivered ----------

  /** Sample `k` of a chunk is delivered sample `start + k`, moved on by all that was
      reported lost at or before `k`. */
  ghost predicate Reconstructs(out: seq<Sc16>, gaps: seq<Gap>, start: nat, d: seq<byte>) {
    forall k :: 0 <= k < |out| ==>
      var n := start + k + LostUpTo(gaps, k);
      2 * n + 1 < |d| && out[k] == SampleAt(d, n)
  }

  /** Sample `n` of the device, from its two bytes: the first is I, the second Q. */
  ghost predicate FromBytes(s: Sc16, d: seq<byte>, n: nat) {
    && 2 * n + 1 < |d|
    && s.i == (2 * d[2 * n] as int - 255) * 128 && s.q == (2 * d[2 * n + 1] as int - 255) * 128
  }

  /** Each sample of a chunk comes from the bytes of its own device sample. */
  ghost predicate AllFromBytes(out: seq<Sc16>, gaps: seq<Gap>, start: nat, d: seq<byte>) {
    forall k :: 0 <= k < |out| ==> FromBytes(out[k], d, start + k + LostUpTo(gaps, k))
  }

  lemma {:induction false} ReconstructsBytes(out: seq<Sc16>, gaps: seq<Gap>, start: nat, d: seq<byte>)
    requires Reconstructs(out, gaps, start, d)
    ensures AllFromBytes(out, gaps, start, d)
  {
    hide LostUpTo, ToSc16;
    forall k | 0 <= k < |out|
      ensures FromBytes(out[k], d, start + k + LostUpTo(gaps, k))
    {
      var n := start + k + LostUpTo(gaps, k);
      ConversionDoesNotWrap(d[2 * n]);
      ConversionDoesNotWrap(d[2 * n + 1]);
    }
  }

  lemma {:induction false} ReconstructsMore(out: seq<Sc16>, gaps: seq<Gap>, start: nat, d: seq<byte>, d': seq<byte>)
    requires Reconstructs(out, gaps, start, d) && d <= d'
    ensures Reconstructs(out, gaps, start, d')
  {
    hide LostUpTo;
  }

  lemma {:induction false} ReconstructsGap(out: seq<Sc16>, gaps: seq<Gap>, start: nat, d: seq<byte>, lost: nat)
    requires Reconstructs(out, gaps, start, d)
    ensures Reconstructs(out, gaps + [Gap(|out|, lost)], start, d)
  {
    hide LostUpTo;
    forall k | 0 <= k < |out|
      ensures LostUpTo(gaps + [Gap(|out|, lost)], k) == LostUpTo(gaps, k)
    {
      LostUpToSnoc(gaps, Gap(|out|, lost), k);
    }
  }

  lemma {:induction false} ReconstructsTake(out: seq<Sc16>, more: seq<Sc16>, gaps: seq<Gap>, start: nat, d: seq<byte>)
    requires Reconstructs(out, gaps, start, d)
    requires forall i :: 0 <= i < |gaps| ==> gaps[i].off <= |out|
    requires 2 * (start + |out| + TotalLost(gaps) + |more|) <= |d|
    requires forall i :: 0 <= i < |more| ==> more[i] == SampleAt(d, start + |out| + TotalLost(gaps) + i)
    ensures Reconstructs(out + more, gaps, start, d)
  {
    hide LostUpTo, TotalLost;
    forall k | |out| <= k < |out + more|
      ensures LostUpTo(gaps, k) == TotalLost(gaps)
    {
      LostUpToAll(gaps, k);
    }
  }

  /** The time that a chunk reports for its first sample: the block's last sample came
      when the block arrived. */
  function SampleTime(arrived: real, bytesLeft: nat, rate: real): real
    requires 0.0 < rate
  {
    arrived - bytesLeft as real / 2.0 / rate
  }

  /** Handing out samples moves the time of the next one on, and the time behind a block's
      last sample is when the block arrived. */
  lemma {:induction false} TimeMovesOn(arrived: real, bytesLeft: nat, take: nat, rate: real)
    requires 0.0 < rate && 2 * take <= bytesLeft
    ensures SampleTime(arrived, 0, rate) == arrived
    ensures SampleTime(arrived, bytesLeft, rate) + take as real / rate == SampleTime(arrived, bytesLeft - 2 * take, rate)
  {
    var a, b := bytesLeft as real / 2.0, take as real;
    assert (bytesLeft - 2 * take) as real / 2.0 == a - b;
    assert (a - b) / rate == a / rate - b / rate;
  }

  function FirstTime(pending: seq<byte>, pendingTime: real, blocks: seq<Block>,
                     arrivals: seq<seq<(seq<byte>, real)>>, rate: real): Option<real>
    requires 0.0 < rate
  {
    if pending != [] then Some(pendingTime)
    else if blocks != [] then Some(SampleTime(blocks[0].arrived, |blocks[0].data|, rate))
    else if arrivals != [] && arrivals[0] != []
    then Some(SampleTime(arrivals[0][0].1, |arrivals[0][0].0|, rate))
    else None
  }

  lemma {:induction false} FirstPending(pending: seq<byte>, pendingTime: real, blocks: seq<Block>,
                                        arrivals: seq<seq<(seq<byte>, real)>>, rate: real)
    requires 0.0 < rate && pending != []
    ensures FirstTime(pending, pendingTime, blocks, arrivals, rate) == Some(pendingTime)
  {
  }

  lemma {:induction false} FirstLook(pendingTime: real, blocks: seq<Block>, arrivals: seq<seq<(seq<byte>, real)>>,
                                     rate: real)
    requires 0.0 < rate
    ensures FirstTime([], pendingTime, blocks, arrivals, rate)
         == FirstTime([], 0.0, blocks, [if arrivals != [] then arrivals[0] else []], rate)
  {
  }

  // ---------- the device's time axis ----------

  lemma {:induction false} LostUpToFront(gaps: seq<Gap>, k: int)
    requires gaps != []
    ensures LostUpTo(gaps, k) == (if gaps[0].off <= k then gaps[0].lost else 0) + LostUpTo(gaps[1..], k)
  {
    var n := |gaps| - 1;
    if n > 0 {
      LostUpToFront(gaps[..n], k);
      assert gaps[..n][1..] == gaps[1..][..n - 1];
    }
  }

  lemma {:induction false} LossBelowUpdate<T>(slots: seq<Slot<T>>, off: nat, lost: nat, m: nat)
    requires off < |slots| && m <= |slots|
    ensures LossBelow(slots[off := Slot(slots[off].lost + lost, slots[off].v)], m)
         == LossBelow(slots, m) + (if off < m then lost else 0)
  {
    if m > 0 {
      LossBelowUpdate(slots, off, lost, m - 1);
    }
  }

  lemma {:induction false} NoLossBelow<T>(data: seq<T>, m: nat)
    requires m <= |data|
    ensures LossBelow(PlainSlots(data), m) == 0
  {
    if m > 0 {
      NoLossBelow(data, m - 1);
    }
  }

  /** A chunk's gaps put its samples on the device's own time axis: `Reconstructs` says
      that sample `k` is delivered sample `start + TimeOf(ChunkSlots(chunk, gaps), k)`. */
  lemma {:induction false} TimeAxis<T>(chunk: seq<T>, gaps: seq<Gap>, k: nat)
    requires forall i :: 0 <= i < |gaps| ==> gaps[i].off < |chunk|
    requires k < |chunk|
    ensures TimeOf(ChunkSlots(chunk, gaps), k) == k + LostUpTo(gaps, k)
  {
    if gaps == [] {
      NoLossBelow(chunk, k + 1);
    } else {
      TimeAxis(chunk, gaps[1..], k);
      LossBelowUpdate(ChunkSlots(chunk, gaps[1..]), gaps[0].off, gaps[0].lost, k + 1);
      LostUpToFront(gaps, k);
    }
  }

  class Receiver {
    const rate: real
    var blocks: seq<Block>
    var pending: seq<byte>
    var pendingTime: real
    var dropPending: nat
    var overflowEvents: nat
    var overflowLost: nat
    var lastGaps: seq<Gap>
    var lastDeviceTime: Option<real>
    /** Every byte delivered, and the samples handed out and reported lost so far. */
    ghost var delivered: seq<byte>
    ghost var handed: nat
    ghost var lost: nat
    /** When the pending block came in. */
    ghost var pendingArrived: real

    /** Index in `delivered` of the next sample to hand out. */
    ghost function Next(): nat
      reads `handed, `lost
    {
      handed + lost
    }

    ghost predicate Valid()
      reads `blocks, `pending, `pendingTime, `pendingArrived, `dropPending, `overflowLost, `delivered, `handed, `lost
    {
      && 0.0 < rate
      && |blocks| <= QUEUE_BLOCKS
      && dropPending % 2 == 0 && |pending| % 2 == 0
      && 2 * Next() + |pending| <= |delivered|
      && delivered[2 * Next()..2 * Next() + |pending|] == pending
      && Follows(delivered, 2 * Next() + |pending|, blocks, dropPending)
      && overflowLost == lost
      && (pending != [] ==> pendingTime == SampleTime(pendingArrived, |pending|, rate))
    }

    constructor (rate: real)
      requires 0.0 < rate
      ensures Valid() && delivered == [] && blocks == [] && handed == 0 && lost == 0
      ensures this.rate == rate
    {
      this.rate := rate;
      blocks, pending, pendingTime, dropPending := [], [], 0.0, 0;
      overflowEvents, overflowLost, lastGaps, lastDeviceTime := 0, 0, [], None;
      delivered, handed, lost, pendingArrived := [], 0, 0, 0.0;
    }

    /** The USB thread: queue the block, or drop it when the queue is full. */
    method OnBlock(data: seq<byte>, now: real)
      requires Valid() && WholeSamples(data)
      modifies `blocks, `dropPending, `delivered
      ensures Valid()
      ensures delivered == old(delivered) + data
      ensures if |old(blocks)| < QUEUE_BLOCKS
              then blocks == old(blocks) + [Block(data, now, old(dropPending))] && dropPending == 0
              else blocks == old(blocks) && dropPending == old(dropPending) + |data|
    {
      hide Follows, SampleTime;
      ghost var at := 2 * Next() + |pending|;
      if |blocks| < QUEUE_BLOCKS {
        FollowsQueue(delivered, at, blocks, dropPending, Block(data, now, dropPending));
        blocks := blocks + [Block(data, now, dropPending)];
        dropPending := 0;
      } else {
        FollowsDrop(delivered, at, blocks, dropPending, data);
        dropPending := dropPending + |data|;
      }
      delivered := delivered + data;
    }

    /** What the device delivers while the consumer is between two of its steps. */
    method Arrive(arrivals: seq<(seq<byte>, real)>)
      requires Valid() && forall i :: 0 <= i < |arrivals| ==> WholeSamples(arrivals[i].0)
      modifies `blocks, `dropPending, `delivered
      ensures Valid()
      ensures old(delivered) <= delivered
      ensures old(blocks) <= blocks
      ensures old(blocks) == [] && arrivals != [] ==>
        blocks != [] && blocks[0].data == arrivals[0].0 && blocks[0].arrived == arrivals[0].1
      ensures arrivals == [] ==> blocks == old(blocks)
    {
      hide Valid();
      for i := 0 to |arrivals|
        invariant Valid()
        invariant old(delivered) <= delivered
        invariant old(blocks) <= blocks
        invariant i == 0 ==> blocks == old(blocks)
        invariant old(blocks) == [] && 0 < i ==>
          blocks != [] && blocks[0].data == arrivals[0].0 && blocks[0].arrived == arrivals[0].1
      {
        OnBlock(arrivals[i].0, arrivals[i].1);
      }
    }

    /** Takes the next block off the queue; what was dropped before it is lost now. */
    method NextBlock() returns (dropped: nat)
      requires Valid() && pending == [] && blocks != []
      modifies `blocks, `pending, `pendingTime, `pendingArrived, `lost, `overflowEvents, `overflowLost
      ensures Valid()
      ensures pending == old(blocks)[0].data && WholeSamples(pending)
      ensures pendingTime == SampleTime(old(blocks)[0].arrived, |pending|, rate)
      ensures dropped == old(blocks)[0].dropped && dropped % 2 == 0
      ensures blocks == old(blocks)[1..] && lost == old(lost) + dropped / 2
      ensures overflowEvents == old(overflowEvents) + (if dropped != 0 then 1 else 0)
    {
      hide Follows;
      var b := blocks[0];
      FollowsHead(delivered, 2 * Next(), blocks, dropPending);
      pending, dropped := b.data, b.dropped;
      pendingTime := b.arrived - |pending| as real / 2.0 / rate;
      pendingArrived := b.arrived;
      blocks := blocks[1..];
      lost := lost + dropped / 2;
      if dropped != 0 {
        overflowEvents := overflowEvents + 1;
        overflowLost := overflowLost + dropped / 2;
      }
    }

    /** Hands out the first samples of the pending block. */
    method Take(out: array<Sc16>, total: nat, take: nat)
      requires Valid() && total + take <= out.Length && 2 * take <= |pending|
      modifies out, `pending, `pendingTime, `handed
      ensures Valid()
      ensures handed == old(handed) + take && pending == old(pending)[2 * take..]
      ensures 2 * (old(Next()) + take) <= |delivered|
      ensures forall i :: 0 <= i < total ==> out[i] == old(out[i])
      ensures forall k :: total <= k < total + take ==> out[k] == SampleAt(delivered, old(Next()) + (k - total))
    {
      hide Follows, SampleAt, SampleTime;
      PendingSamples(take);
      forall k | total <= k < total + take {
        out[k] := SampleAt(pending, k - total);
      }
      PendingTail(take);
      TimeMovesOn(pendingArrived, |pending|, take, rate);
      pending := pending[2 * take..];
      pendingTime := pendingTime + take as real / rate;
      handed := handed + take;
    }

    lemma {:induction false} PendingSamples(take: nat)
      requires Valid() && 2 * take <= |pending|
      ensures 2 * (Next() + take) <= |delivered|
      ensures forall i :: 0 <= i < take ==> SampleAt(pending, i) == SampleAt(delivered, Next() + i)
    {
      hide Follows;
      forall i | 0 <= i < take
        ensures SampleAt(pending, i) == SampleAt(delivered, Next() + i)
      {
        assert pending[2 * i] == delivered[2 * (Next() + i)];
        assert pending[2 * i + 1] == delivered[2 * (Next() + i) + 1];
      }
    }

    lemma {:induction false} PendingTail(take: nat)
      requires Valid() && 2 * take <= |pending|
      ensures pending[2 * take..] == delivered[2 * (Next() + take)..2 * Next() + |pending|]
    {
      hide Follows;
    }

    lemma {:induction false} PendingWhole()
      requires Valid() && pending != []
      ensures WholeSamples(pending)
    {
      hide Follows;
    }

    /** One look at the queue, when nothing is pending. A loss becomes a gap at `|out|`. */
    method Refill(arrivals: seq<(seq<byte>, real)>, total: nat, gaps: seq<Gap>, ghost out: seq<Sc16>, ghost start: nat)
      returns (more: bool, gaps': seq<Gap>)
      requires Valid() && pending == [] && total == |out|
      requires forall i :: 0 <= i < |arrivals| ==> WholeSamples(arrivals[i].0)
      requires GapsOk(gaps, total) && Reconstructs(out, gaps, start, delivered)
      modifies `blocks, `dropPending, `delivered, `pending, `pendingTime, `pendingArrived, `lost, `overflowEvents, `overflowLost
      ensures Valid() && old(delivered) <= delivered
      ensures GapsOk(gaps', total + 1) && Reconstructs(out, gaps', start, delivered)
      ensures lost + TotalLost(gaps) == old(lost) + TotalLost(gaps')
      ensures overflowEvents + |gaps| == old(overflowEvents) + |gaps'|
      ensures if more then WholeSamples(pending) else pending == [] && blocks == [] && gaps' == gaps
      ensures 0.0 < rate
      ensures FirstTime([], 0.0, old(blocks), [arrivals], rate) == if more then Some(pendingTime) else None
    {
      hide Follows, TotalLost, LostUpTo, Reconstructs;
      gaps' := gaps;
      Arrive(arrivals);
      ReconstructsMore(out, gaps, start, old(delivered), delivered);
      more := blocks != [];
      if more {
        var dropped := NextBlock();
        if dropped != 0 {
          ReconstructsGap(out, gaps, start, delivered, dropped / 2);
          LostUpToSnoc(gaps, Gap(total, dropped / 2), total);
          gaps' := gaps + [Gap(total, dropped / 2)];
        }
      }
    }

    /** Fills on from the pending block, as far as it or the room goes. */
    method Fill(out: array<Sc16>, total: nat, ghost gaps: seq<Gap>, ghost start: nat) returns (total': nat)
      requires Valid() && total < out.Length && WholeSamples(pending)
      requires GapsOk(gaps, total + 1) && Reconstructs(out[..total], gaps, start, delivered)
      requires Next() == start + total + TotalLost(gaps)
      modifies out, `pending, `pendingTime, `handed
      ensures Valid()
      ensures total < total' <= out.Length && handed == old(handed) + total' - total
      ensures Reconstructs(out[..total'], gaps, start, delivered)
    {
      hide Valid, SampleAt, TotalLost, LostUpTo, Reconstructs;
      var take := if out.Length - total < |pending| / 2 then out.Length - total else |pending| / 2;
      ghost var before := out[..total];
      Take(out, total, take);
      total' := total + take;
      assert out[..total] == before && out[..total'] == before + out[total..total'];
      ReconstructsTake(before, out[total..total'], gaps, start, delivered);
    }

    /**
     Fills `out` from the stream. `arrivals[g]` is what the device delivers before the
     `g`-th look at the queue, so that every interleaving of the two threads is covered.
     */
    method RecvChunk(out: array<Sc16>, arrivals: seq<seq<(seq<byte>, real)>>) returns (total: nat)
      requires Valid()
      requires forall g :: 0 <= g < |arrivals| ==>
        forall i :: 0 <= i < |arrivals[g]| ==> WholeSamples(arrivals[g][i].0)
      modifies this, out
      ensures Valid() && old(delivered) <= delivered
      ensures total <= out.Length
      ensures GapsOk(lastGaps, total)
      ensures Reconstructs(out[..total], lastGaps, old(Next()), delivered)
      ensures AllFromBytes(out[..total], lastGaps, old(Next()), delivered)
      ensures handed == old(handed) + total && lost == old(lost) + TotalLost(lastGaps)
      ensures overflowEvents == old(overflowEvents) + |lastGaps|
      ensures total < out.Length ==> pending == [] && blocks == []
      ensures 0 < out.Length ==>
        lastDeviceTime == FirstTime(old(pending), old(pendingTime), old(blocks), arrivals, rate)
    {
      hide Valid, Follows, TotalLost, LostUpTo, SampleAt, Reconstructs, FirstTime, SampleTime, AllFromBytes;
      ghost var start := Next();
      total := 0;
      var gaps: seq<Gap> := [];
      var firstTime: Option<real> := None;
      var looks := 0;
      NothingYet(start);
      while total < out.Length
        invariant Valid() && old(delivered) <= delivered
        invariant total <= out.Length && looks <= total
        invariant GapsOk(gaps, total)
        invariant Reconstructs(out[..total], gaps, start, delivered)
        invariant handed == old(handed) + total && lost == old(lost) + TotalLost(gaps)
        invariant overflowEvents == old(overflowEvents) + |gaps|
        invariant 0.0 < rate
        invariant firstTime == if total == 0 then None
                               else FirstTime(old(pending), old(pendingTime), old(blocks), arrivals, rate)
        invariant 0 < total ==> firstTime.Some?
        invariant total == 0 ==> pending == old(pending) && pendingTime == old(pendingTime) && blocks == old(blocks)
        decreases out.Length - total
      {
        if pending == [] {
          var more;
          FirstLook(pendingTime, blocks, arrivals, rate);
          more, gaps := Refill(if looks < |arrivals| then arrivals[looks] else [], total, gaps, out[..total], start);
          looks := looks + 1;
          if !more {
            break;
          }
        } else {
          PendingWhole();
          FirstPending(pending, pendingTime, blocks, arrivals, rate);
        }
        if firstTime == None {
          firstTime := Some(pendingTime);
        }
        total := Fill(out, total, gaps, start);
      }
      ReconstructsBytes(out[..total], gaps, start, delivered);
      lastGaps := gaps;
      lastDeviceTime := firstTime;
    }

    lemma {:induction false} NothingYet(start: nat)
      requires Valid()
      ensures Reconstructs([], [], start, delivered) && TotalLost([]) == 0 && 0.0 < rate
    {
    }
  }
}
