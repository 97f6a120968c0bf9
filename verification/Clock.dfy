/**
 The capture clock (`capture/clock.py`): the smallest offset between host and device time
 over a sliding window, kept in a deque whose offsets increase from front to back.
 */
module Clock {
  import opened Wrappers

  const WINDOW_SEC := 60.0
  const JUMP_SEC := 1.0
  const JUMP_HOLD_SEC := 5.0

  /** One measurement: when the chunk arrived, its offset, and whether it was late against
      the estimate before it. */
  datatype Measured = Measured(host: real, offset: real, late: bool)

  /** Measurement `i` is none older than `since` and arrived at `from` or later. */
  ghost predicate Counts(log: seq<Measured>, since: nat, from: real, i: int) {
    since <= i < |log| && log[i].host >= from
  }

  ghost predicate Ordered(log: seq<Measured>) {
    forall i, j :: 0 <= i < j < |log| ==> log[i].host <= log[j].host
  }

  /** The deque increases, holds only measurements that count, and for each of those it
      holds one at least as recent and at most as large. */
  ghost predicate Slides(mins: seq<(real, real)>, log: seq<Measured>, since: nat, from: real) {
    Rising(mins) && AllHeld(mins, log, since, from) && AllBeaten(mins, log, since, from)
  }

  ghost predicate Rising(mins: seq<(real, real)>) {
    forall i, j :: 0 <= i < j < |mins| ==> mins[i].0 <= mins[j].0 && mins[i].1 < mins[j].1
  }

  ghost predicate AllHeld(mins: seq<(real, real)>, log: seq<Measured>, since: nat, from: real) {
    forall k :: 0 <= k < |mins| ==> Holds(mins[k], log, since, from)
  }

  ghost predicate AllBeaten(mins: seq<(real, real)>, log: seq<Measured>, since: nat, from: real) {
    forall i :: Counts(log, since, from, i) ==> Beaten(mins, log[i].host, log[i].offset)
  }

  ghost predicate Holds(m: (real, real), log: seq<Measured>, since: nat, from: real) {
    exists i :: Counts(log, since, from, i) && log[i].host == m.0 && log[i].offset == m.1
  }

  ghost predicate Beaten(mins: seq<(real, real)>, host: real, offset: real) {
    exists k :: 0 <= k < |mins| && mins[k].0 >= host && mins[k].1 <= offset
  }

  /** `x` is the smallest offset of the measurements that count. */
  ghost predicate IsLeast(x: real, log: seq<Measured>, since: nat, from: real) {
    && (exists i :: Counts(log, since, from, i) && log[i].offset == x)
    && (forall i :: Counts(log, since, from, i) ==> x <= log[i].offset)
  }

  lemma {:induction false} FrontIsLeast(mins: seq<(real, real)>, log: seq<Measured>, since: nat, from: real)
    requires Slides(mins, log, since, from) && mins != []
    ensures IsLeast(mins[0].1, log, since, from)
  {
    assert Holds(mins[0], log, since, from);
    forall i | Counts(log, since, from, i)
      ensures mins[0].1 <= log[i].offset
    {
      assert Beaten(mins, log[i].host, log[i].offset);
    }
  }

  lemma {:induction false} HoldsMore(m: (real, real), log: seq<Measured>, since: nat, from: real, x: Measured)
    requires Holds(m, log, since, from) && Ordered(log + [x])
    ensures Holds(m, log + [x], since, from) && m.0 <= x.host
  {
    var i :| Counts(log, since, from, i) && log[i].host == m.0 && log[i].offset == m.1;
    assert (log + [x])[i] == log[i] && (log + [x])[|log|] == x;
    assert Counts(log + [x], since, from, i);
  }

  lemma {:induction false} BeatenAfterPush(mins: seq<(real, real)>, keep: nat, host: real, offset: real, m: (real,
                                           real))
    requires Beaten(mins, host, offset) && host <= m.0 && keep <= |mins|
    requires forall k :: keep <= k < |mins| ==> mins[k].1 >= m.1
    ensures Beaten(mins[..keep] + [m], host, offset)
  {
    var now := mins[..keep] + [m];
    var k :| 0 <= k < |mins| && mins[k].0 >= host && mins[k].1 <= offset;
    if k < keep {
      assert now[k] == mins[k];
    } else {
      assert now[keep] == m;
    }
  }

  /** A new measurement makes the larger ones before it useless. */
  lemma {:induction false} PushKeeps(mins: seq<(real, real)>, keep: nat, log: seq<Measured>, since: nat,
                                     from: real, m: Measured)
    requires Slides(mins, log, since, from) && Ordered(log + [m]) && since <= |log| && from <= m.host
    requires keep <= |mins| && (forall k :: keep <= k < |mins| ==> mins[k].1 >= m.offset)
    requires 0 < keep ==> mins[keep - 1].1 < m.offset
    ensures Slides(mins[..keep] + [(m.host, m.offset)], log + [m], since, from)
  {
    hide Holds, Beaten, Ordered;
    var now, log' := mins[..keep] + [(m.host, m.offset)], log + [m];
    forall k | 0 <= k < |now|
      ensures Holds(now[k], log', since, from) && now[k].0 <= m.host
    {
      if k < keep {
        HoldsMore(mins[k], log, since, from, m);
      } else {
        HoldsNewest(log, since, from, m);
      }
    }
    forall i | Counts(log', since, from, i)
      ensures Beaten(now, log'[i].host, log'[i].offset)
    {
      if i < |log| {
        assert Counts(log, since, from, i);
        NotAfter(log, m, i);
        BeatenAfterPush(mins, keep, log[i].host, log[i].offset, (m.host, m.offset));
      } else {
        BeatenByItself(now, keep);
      }
    }
  }

  lemma {:induction false} HoldsNewest(log: seq<Measured>, since: nat, from: real, m: Measured)
    requires since <= |log| && from <= m.host
    ensures Holds((m.host, m.offset), log + [m], since, from)
  {
    assert Counts(log + [m], since, from, |log|);
  }

  lemma {:induction false} NotAfter(log: seq<Measured>, m: Measured, i: nat)
    requires Ordered(log + [m]) && i < |log|
    ensures log[i].host <= m.host
  {
    assert (log + [m])[i] == log[i] && (log + [m])[|log|] == m;
  }

  lemma {:induction false} BeatenByItself(mins: seq<(real, real)>, k: nat)
    requires k < |mins|
    ensures Beaten(mins, mins[k].0, mins[k].1)
  {
  }

  /** What left the window is dropped at the front. */
  lemma {:induction false} ExpireKeeps(mins: seq<(real, real)>, drop: nat, log: seq<Measured>, since: nat,
                                       from: real, from': real)
    requires Slides(mins, log, since, from) && from <= from' && drop < |mins|
    requires (forall k :: 0 <= k < drop ==> mins[k].0 < from') && mins[drop].0 >= from'
    ensures Slides(mins[drop..], log, since, from')
  {
    hide Holds, Beaten;
    forall k | 0 <= k < |mins| - drop
      ensures Holds(mins[drop..][k], log, since, from')
    {
      HoldsLater(mins[drop + k], log, since, from, from');
    }
    forall i | Counts(log, since, from', i)
      ensures Beaten(mins[drop..], log[i].host, log[i].offset)
    {
      assert Counts(log, since, from, i);
      BeatenAfterDrop(mins, drop, log[i].host, log[i].offset, from');
    }
  }

  lemma {:induction false} HoldsLater(m: (real, real), log: seq<Measured>, since: nat, from: real, from': real)
    requires Holds(m, log, since, from) && from' <= m.0
    ensures Holds(m, log, since, from')
  {
    var i :| Counts(log, since, from, i) && log[i].host == m.0 && log[i].offset == m.1;
    assert Counts(log, since, from', i);
  }

  lemma {:induction false} BeatenAfterDrop(mins: seq<(real, real)>, drop: nat, host: real, offset: real, from: real)
    requires Beaten(mins, host, offset) && from <= host && drop <= |mins|
    requires forall k :: 0 <= k < drop ==> mins[k].0 < from
    ensures Beaten(mins[drop..], host, offset)
  {
    var k :| 0 <= k < |mins| && mins[k].0 >= host && mins[k].1 <= offset;
    assert mins[drop..][k - drop] == mins[k];
  }

  /** Nothing counts yet when the estimate starts over. */
  lemma {:induction false} StartsOver(log: seq<Measured>, from: real)
    ensures Slides([], log, |log|, from)
  {
  }

  /** With delays that are never negative the estimate is never below the true offset. */
  lemma {:induction false} NeverBelow(x: real, log: seq<Measured>, since: nat, from: real, trueOffset: real)
    requires IsLeast(x, log, since, from) && forall i :: 0 <= i < |log| ==> trueOffset <= log[i].offset
    ensures trueOffset <= x
  {
    var i :| Counts(log, since, from, i) && log[i].offset == x;
  }

  class CaptureClock {
    /** Host time and offset of recent chunks. */
    var mins: seq<(real, real)>
    var lateSince: Option<real>
    /** Every chunk measured; the estimate counts them from `since`; the chunks from
        `lateFrom` on were all late. */
    ghost var log: seq<Measured>
    ghost var since: nat
    ghost var lateFrom: nat

    ghost function Newest(): real
      requires log != []
      reads `log
    {
      log[|log| - 1].host
    }

    ghost predicate LateOk()
      reads `log, `lateSince, `lateFrom
    {
      && lateFrom <= |log|
      && (forall i :: lateFrom <= i < |log| ==> log[i].late)
      && (lateSince.Some? ==> lateFrom < |log| && log[lateFrom].host == lateSince.value)
      && (lateSince.None? ==> lateFrom == |log|)
    }

    ghost predicate Valid()
      reads this
    {
      && Ordered(log) && LateOk()
      && (if log == [] then mins == [] && since == 0
          else mins != [] && since < |log| && Slides(mins, log, since, Newest() - WINDOW_SEC))
    }

    constructor ()
      ensures Valid() && log == []
    {
      mins, lateSince := [], None;
      log, since, lateFrom := [], 0, 0;
    }

    /**
     The host time of a chunk's first sample. With a device time the offset measured counts,
     and the estimate is the smallest of the window. It starts over only when every chunk
     for `JUMP_HOLD_SEC` was late.
     */
    method ChunkStart(deviceStart: Option<real>, duration: real, hostNow: real) returns (start: real)
      requires Valid() && (log != [] ==> Newest() <= hostNow)
      modifies `mins, `lateSince, `since, `lateFrom, `log
      ensures Valid()
      ensures deviceStart.None? ==> start == hostNow - duration && log == old(log) && mins == old(mins) && since == old(since)
      ensures deviceStart.Some? ==>
        var offset := hostNow - (deviceStart.value + duration);
        && log == old(log) + [Measured(hostNow, offset, old(mins) != [] && offset - old(mins)[0].1 > JUMP_SEC)]
        && IsLeast(start - deviceStart.value, log, since, hostNow - WINDOW_SEC)
      ensures deviceStart.Some? ==>
        var late := log[|log| - 1].late;
        var lasted := late && old(lateSince).Some? && hostNow - old(lateSince).value >= JUMP_HOLD_SEC;
        && since == (if lasted then |old(log)| else old(since))
        && lateSince == (if !late || lasted then None else if old(lateSince).Some? then old(lateSince) else Some(hostNow))
      ensures since != old(since) ==>
        && old(lateFrom) < |old(log)| && hostNow - log[old(lateFrom)].host >= JUMP_HOLD_SEC
        && forall j :: old(lateFrom) <= j < |log| ==> log[j].late
    {
      hide Slides, IsLeast, Ordered;
      if deviceStart.None? {
        return hostNow - duration;
      }
      var sample := hostNow - (deviceStart.value + duration);
      ghost var from := From(hostNow);
      ghost var late := CheckLate(sample, hostNow);
      NextOrdered(Measured(hostNow, sample, late));
      Push(sample, hostNow, late, from);
      Expire(hostNow, from);
      FrontIsLeast(mins, log, since, hostNow - WINDOW_SEC);
      start := deviceStart.value + mins[0].1;
      lateFrom := if lateSince.None? then |log| else if old(lateSince).None? then |log| - 1 else lateFrom;
    }

    /** Where the window starts before the new chunk counts. */
    ghost function From(hostNow: real): real
      reads `log
    {
      if log == [] then hostNow - WINDOW_SEC else Newest() - WINDOW_SEC
    }

    lemma {:induction false} NextOrdered(m: Measured)
      requires Ordered(log) && Follows(m.host)
      ensures Ordered(log + [m])
    {
    }

    /** The host times do not go back over the new chunk. */
    ghost predicate Follows(hostNow: real)
      reads `log
    {
      log != [] ==> Newest() <= hostNow
    }

    /** Late chunks are timed; when they have lasted, the estimate starts over. */
    method CheckLate(sample: real, hostNow: real) returns (ghost late: bool)
      requires Valid() && Follows(hostNow)
      modifies `mins, `lateSince, `since
      ensures late <==> old(mins) != [] && sample - old(mins)[0].1 > JUMP_SEC
      ensures !late ==> lateSince == None && since == old(since)
      ensures late ==>
        if old(lateSince).Some? && hostNow - old(lateSince).value >= JUMP_HOLD_SEC
        then since == |log| && lateSince == None
        else since == old(since) && lateSince == if old(lateSince).Some? then old(lateSince) else Some(hostNow)
      ensures since <= |log| && Slides(mins, log, since, From(hostNow))
    {
      hide Slides;
      StartsOver(log, From(hostNow));
      late := mins != [] && sample - mins[0].1 > JUMP_SEC;
      if mins != [] && sample - mins[0].1 > JUMP_SEC {
        if lateSince.None? {
          lateSince := Some(hostNow);
        } else if hostNow - lateSince.value >= JUMP_HOLD_SEC {
          mins, lateSince := [], None;
          since := |log|;
        }
      } else {
        lateSince := None;
      }
    }

    /** Drops the offsets at the back that are not smaller, and appends the new one. */
    method Push(sample: real, hostNow: real, ghost late: bool, ghost from: real)
      requires Ordered(log + [Measured(hostNow, sample, late)]) && since <= |log| && from <= hostNow
      requires Slides(mins, log, since, from)
      modifies `mins, `log
      ensures log == old(log) + [Measured(hostNow, sample, late)]
      ensures mins != [] && mins[|mins| - 1] == (hostNow, sample)
      ensures Slides(mins, log, since, from)
    {
      hide Slides, Ordered;
      ghost var keep := |mins|;
      while mins != [] && mins[|mins| - 1].1 >= sample
        invariant log == old(log)
        invariant keep == |mins| <= |old(mins)| && mins == old(mins)[..keep]
        invariant forall k :: keep <= k < |old(mins)| ==> old(mins)[k].1 >= sample
      {
        keep := keep - 1;
        mins := mins[..|mins| - 1];
      }
      assert 0 < keep ==> mins[|mins| - 1] == old(mins)[keep - 1];
      mins := mins + [(hostNow, sample)];
      PushKeeps(old(mins), keep, log, since, from, Measured(hostNow, sample, late));
      log := log + [Measured(hostNow, sample, late)];
    }

    /** Drops what left the window. */
    method Expire(hostNow: real, ghost from: real)
      requires mins != [] && mins[|mins| - 1].0 == hostNow
      requires Slides(mins, log, since, from) && from <= hostNow - WINDOW_SEC
      modifies `mins
      ensures mins != [] && Slides(mins, log, since, hostNow - WINDOW_SEC)
    {
      hide Slides;
      ghost var drop := 0;
      while mins[0].0 < hostNow - WINDOW_SEC
        invariant drop < |old(mins)| && mins == old(mins)[drop..]
        invariant forall k :: 0 <= k < drop ==> old(mins)[k].0 < hostNow - WINDOW_SEC
        decreases |mins|
      {
        assert |mins| > 1;
        mins := mins[1..];
        drop := drop + 1;
      }
      ExpireKeeps(old(mins), drop, log, since, from, hostNow - WINDOW_SEC);
    }
  }
}
