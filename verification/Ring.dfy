/**
 The circular IQ buffer (`capture/buffer.py`, class `CircularBuffer`).

 The receiver appends chunks; recordings, scheduled runs and the isolation stage
 read stream ranges back. Every reader is specified against `history`, the whole
 sample stream written so far: a stream position `p` is an index into it.
 */
module Ring {
  import opened Wrappers

  /** An index that has left `[0, cap)` by less than one turn, brought back with `%`. */
  lemma {:induction false} WrapOnce(i: int, cap: nat)
    requires 0 < cap
    requires 0 <= i + cap && i < cap
    ensures i % cap == if i < 0 then i + cap else i
  {
    if i < 0 {
      assert (i + cap) % cap == i + cap;
      assert i == (i + cap) + cap * (-1);
    }
  }

  lemma {:induction false} ModWithinTwoTurns(i: nat, cap: nat)
    requires i < 2 * cap
    ensures i % cap == if i < cap then i else i - cap
  {
    if i >= cap {
      assert i == (i - cap) + cap * 1;
      assert (i - cap) % cap == i - cap;
    }
  }

  class CircularBuffer<T(0)> {
    const buffer: array<T>
    var writePos: nat
    var totalWritten: nat
    /** Every sample ever written since creation or the last `Clear`. */
    ghost var history: seq<T>

    /** Stream position of the oldest sample still held. */
    function Oldest(): (p: nat)
      reads this
    {
      totalWritten - (if totalWritten < buffer.Length then totalWritten else buffer.Length)
    }

    /** Where the sample at stream position `p` is kept. It is measured back from
        `writePos`: after an oversized write `p % capacity` would be wrong. */
    function Slot(p: nat): int
      reads this
    {
      var i := writePos - (totalWritten - p);
      if i < 0 then i + buffer.Length else i
    }

    ghost predicate Valid()
      reads this, buffer
    {
      && 0 < buffer.Length
      && writePos < buffer.Length
      && totalWritten == |history|
      && (totalWritten < buffer.Length ==> writePos == totalWritten)
      && forall p :: Oldest() <= p < totalWritten ==>
           0 <= Slot(p) < buffer.Length && buffer[Slot(p)] == history[p]
    }

    constructor (maxSamples: nat)
      requires 0 < maxSamples
      ensures Valid() && fresh(buffer)
      ensures buffer.Length == maxSamples && history == []
    {
      buffer := new T[maxSamples];
      writePos := 0;
      totalWritten := 0;
      history := [];
    }

    /** Append samples, overwriting the oldest. */
    method Write(data: seq<T>)
      requires Valid()
      modifies this, buffer
      ensures Valid()
      ensures history == old(history) + data
    {
      if |data| >= buffer.Length {
        WriteOversized(data);
      } else {
        WriteWrapping(data);
      }
    }

    /** Data larger than the buffer: keep only its last `capacity` samples. */
    method WriteOversized(data: seq<T>)
      requires Valid() && |data| >= buffer.Length
      modifies this, buffer
      ensures Valid()
      ensures history == old(history) + data
    {
      var cap := buffer.Length;
      forall i | 0 <= i < cap {
        buffer[i] := data[|data| - cap + i];
      }
      writePos := 0;
      totalWritten := totalWritten + |data|;
      history := history + data;
    }

    /** Data that fits, in one piece or wrapped around the end. */
    method WriteWrapping(data: seq<T>)
      requires Valid() && |data| < buffer.Length
      modifies this, buffer
      ensures Valid()
      ensures history == old(history) + data
    {
      CopyIn(data);
      var n := |data|;
      var cap := buffer.Length;
      var endPos := writePos + n;
      ModWithinTwoTurns(endPos, cap);
      writePos := endPos % cap;
      totalWritten := totalWritten + n;
      history := history + data;
      forall p | Oldest() <= p < totalWritten
        ensures 0 <= Slot(p) < cap && buffer[Slot(p)] == history[p]
      {
        if p < |old(history)| {
          assert Slot(p) == old(Slot(p));
          assert old(buffer[Slot(p)]) == old(history)[p];
        }
      }
    }

    method CopyIn(data: seq<T>)
      requires writePos < buffer.Length && |data| < buffer.Length
      modifies buffer
      ensures forall i :: 0 <= i < buffer.Length ==>
          buffer[i] == if writePos <= i < writePos + |data| then data[i - writePos]
                       else if i < writePos + |data| - buffer.Length then data[i + buffer.Length - writePos]
                       else old(buffer[i])
    {
      var n := |data|;
      var cap := buffer.Length;
      var endPos := writePos + n;
      if endPos <= cap {
        forall i | writePos <= i < endPos {
          buffer[i] := data[i - writePos];
        }
      } else {
        var firstChunk := cap - writePos;
        forall i | writePos <= i < cap {
          buffer[i] := data[i - writePos];
        }
        forall i | 0 <= i < n - firstChunk {
          buffer[i] := data[firstChunk + i];
        }
      }
    }

    method Clear()
      requires Valid()
      modifies this, buffer
      ensures Valid()
      ensures history == []
    {
      history := [];
      writePos := 0;
      totalWritten := 0;
    }

    /** The stream position of the next sample. */
    method NextPosition() returns (p: nat)
      requires Valid()
      ensures p == |history|
    {
      p := totalWritten;
    }

    /** The stream samples `[oldest, total)` are readable. */
    method Bounds() returns (oldest: nat, total: nat)
      requires Valid()
      ensures total == |history| && oldest == Oldest()
      ensures total - oldest == if |history| < buffer.Length then |history| else buffer.Length
    {
      oldest := totalWritten - (if totalWritten < buffer.Length then totalWritten else buffer.Length);
      total := totalWritten;
    }

    method CopyRange(start: nat, end: nat) returns (data: seq<T>)
      requires Valid()
      requires Oldest() <= start < end <= totalWritten
      ensures data == history[start..end]
    {
      var cap := buffer.Length;
      var i0 := (writePos - (totalWritten - start)) % cap;
      WrapOnce(writePos - (totalWritten - start), cap);
      assert i0 == Slot(start);
      var n := end - start;
      if i0 + n <= cap {
        data := buffer[i0..i0 + n];
      } else {
        var first := cap - i0;
        data := buffer[i0..] + buffer[..n - first];
      }
      assert forall k :: 0 <= k < n ==> data[k] == buffer[Slot(start + k)];
    }

    /** A copy of stream `[start, end)`, or None if any of it was overwritten, is not
        yet written, or the range is empty. */
    method ReadRange(start: int, end: int) returns (r: Option<seq<T>>)
      requires Valid()
      ensures r == if start < end && Oldest() <= start && end <= |history|
                   then Some(history[start..end]) else None
    {
      var oldest := totalWritten - (if totalWritten < buffer.Length then totalWritten else buffer.Length);
      if start >= end || start < oldest || end > totalWritten {
        return None;
      }
      var data := CopyRange(start, end);
      return Some(data);
    }

    /** Everything held, in order, and the stream position just after it. */
    method ReadWithPosition() returns (data: seq<T>, total: nat)
      requires Valid()
      ensures total == |history|
      ensures data == history[Oldest()..]
    {
      if totalWritten < buffer.Length {
        data := buffer[..writePos];
        assert forall p :: 0 <= p < totalWritten ==> Slot(p) == p;
      } else {
        data := buffer[writePos..] + buffer[..writePos];
        assert forall k :: 0 <= k < buffer.Length ==> data[k] == buffer[Slot(Oldest() + k)];
      }
      total := totalWritten;
    }

    /** The newest `n` samples (fewer if not held) and the position just after them. */
    method ReadTailWithPosition(n: int) returns (data: seq<T>, total: nat)
      requires Valid()
      ensures total == |history|
      ensures var held := if |history| < buffer.Length then |history| else buffer.Length;
        |data| == if n <= 0 then 0 else if n < held then n else held
      ensures data == history[|history| - |data|..]
    {
      total := totalWritten;
      var m := if n < totalWritten then n else totalWritten;
      m := if m < buffer.Length then m else buffer.Length;
      if m <= 0 {
        return [], total;
      }
      data := CopyRange(totalWritten - m, totalWritten);
      assert |data| == m;
    }
  }
}
