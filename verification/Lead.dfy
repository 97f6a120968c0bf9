/**
 The lossless lead protocol (`pipeline/streaming.py`): in a lossless replay the receiver
 keeps within a limit of the burst thread, so that the ring still holds every burst when
 the isolation stage reads it. Each method is one step of one thread.
 */
module Lead {
  import opened Arith

  /** Sizes in samples, but `evalRows` in PSD rows of `slice` samples. */
  datatype Sizes = Sizes(capacity: nat, chunk: nat, slice: nat, evalRows: nat, maxBurst: nat, guard: nat)
  {
    predicate Valid() {
      0 < slice
    }

    /** How far behind the done position a burst can start. */
    function Reach(): nat {
      (evalRows + 3) * slice + maxBurst
    }

    function Reserve(): nat {
      Reach() + 2 * guard
    }

    /** The lead limit, never below two chunks. */
    function Limit(): int {
      if capacity - Reserve() < 2 * chunk then 2 * chunk else capacity - Reserve()
    }

    /** The ring is large enough for its limit. */
    predicate Unclamped() {
      2 * chunk <= capacity - Reserve()
    }
  }

  /** The stream samples read for a burst, and whether only its head is (`processing/isolate.py`). */
  function ReadRange(start: nat, stop: int, guard: nat, maxBurst: nat): (int, int, bool) {
    var truncated := stop - start > maxBurst;
    (MaxInt(0, start - guard), (if truncated then start + maxBurst else stop) + guard, truncated)
  }

  /** A read takes the whole burst, or the longest allowed head of it, with a guard on both
      sides, except for what would lie before the stream; so it never takes more than the
      longest burst and two guards. */
  lemma {:induction false} ReadIsBounded(start: nat, stop: int, guard: nat, maxBurst: nat)
    requires start <= stop
    ensures var (a, b, t) := ReadRange(start, stop, guard, maxBurst);
      && 0 <= a <= start && (a == start - guard || (a == 0 && start < guard))
      && b - a <= maxBurst + 2 * guard
      && (t <==> maxBurst < stop - start)
      && b - guard == if t then start + maxBurst else stop
  {
  }

  /** The limit is two chunks or what the reserve leaves of the ring, whichever is more. */
  lemma {:induction false} LimitIs(z: Sizes)
    ensures 2 * z.chunk <= z.Limit() && z.capacity - z.Reserve() <= z.Limit()
    ensures z.Limit() == if z.Unclamped() then z.capacity - z.Reserve() else 2 * z.chunk
  {
  }

  /** Oldest sample that a ring of this capacity holds. */
  function Oldest(total: nat, capacity: nat): nat {
    if total < capacity then 0 else total - capacity
  }

  /** A lead that the limit allows, and a burst that starts at most `behind` samples before the
      published position. */
  predicate Allowed(z: Sizes, behind: nat, total: nat, done: nat, start: nat) {
    done <= total && total <= done + z.Limit() && done - behind <= start
  }

  /** The guarded start of a burst is still in the ring. */
  predicate Held(z: Sizes, total: nat, start: nat) {
    Oldest(total, z.capacity) <= MaxInt(0, start - z.guard)
  }

  /** Every lead that the limit allows leaves every such burst readable. */
  ghost predicate AlwaysHeld(z: Sizes, behind: nat) {
    forall total: nat, done: nat, start: nat :: Allowed(z, behind, total, done, start) ==> Held(z, total, start)
  }

  lemma {:induction false} HeldWhenItFits(z: Sizes, behind: nat, total: nat, done: nat, start: nat)
    requires z.Limit() + behind + z.guard <= z.capacity
    requires Allowed(z, behind, total, done, start)
    ensures Held(z, total, start)
  {
  }

  /** The exact condition: the ring has room for the lead, the stretch behind it and a guard. */
  lemma {:induction false} AlwaysHeldIff(z: Sizes, behind: nat)
    requires z.Valid()
    ensures AlwaysHeld(z, behind) <==> z.Limit() + behind + z.guard <= z.capacity
    ensures z.Unclamped() ==> z.Limit() == z.capacity - z.Reserve()
  {
    if z.Limit() + behind + z.guard <= z.capacity {
      forall total: nat, done: nat, start: nat | Allowed(z, behind, total, done, start)
        ensures Held(z, total, start)
      {
        HeldWhenItFits(z, behind, total, done, start);
      }
    } else {
      TooFar(z, behind);
    }
  }

  lemma {:induction false} TooFar(z: Sizes, behind: nat)
    requires z.Valid() && z.Limit() + behind + z.guard > z.capacity
    ensures !AlwaysHeld(z, behind)
  {
    hide Allowed, Held;
    var done: nat := behind + z.guard + z.capacity;
    var total: nat := done + MaxInt(0, z.Limit());
    LeadTooFar(z, behind, total, done, done - behind);
  }

  lemma {:induction false} LeadTooFar(z: Sizes, behind: nat, total: nat, done: nat, start: nat)
    requires z.Valid() && z.Limit() + behind + z.guard > z.capacity
    requires done == behind + z.guard + z.capacity && total == done + MaxInt(0, z.Limit()) && start == done - behind
    ensures Allowed(z, behind, total, done, start) && !Held(z, total, start)
  {
  }

  lemma {:induction false} WholeRows(n: nat, d: nat)
    requires 0 < d
    ensures 0 <= n / d * d <= n < n / d * d + d
  {
    assert n == d * (n / d) + n % d;
    assert n / d * d == d * (n / d);
  }

  /** A chunk that was written and whose grid is not done yet. */
  datatype Chunk = Chunk(start: nat, n: nat)

  /** The position that finishing a chunk's grid publishes: its whole rows. */
  function EndOf(c: Chunk, slice: nat): nat
    requires 0 < slice
  {
    c.start + c.n / slice * slice
  }

  /** Chunks follow each other from `from` to `to`. */
  ghost predicate Chain(grids: seq<Chunk>, from: nat, to: nat)
    decreases |grids|
  {
    if grids == [] then from == to
    else grids[0].start == from && Chain(grids[1..], from + grids[0].n, to)
  }

  lemma {:induction false} ChainSnoc(grids: seq<Chunk>, from: nat, to: nat, n: nat)
    requires Chain(grids, from, to)
    ensures Chain(grids + [Chunk(to, n)], from, to + n)
    decreases |grids|
  {
    if grids == [] {
    } else {
      ChainSnoc(grids[1..], from + grids[0].n, to, n);
      assert (grids + [Chunk(to, n)])[1..] == grids[1..] + [Chunk(to, n)];
    }
  }

  lemma {:induction false} ChainBounds(grids: seq<Chunk>, from: nat, to: nat, i: nat)
    requires Chain(grids, from, to) && i < |grids|
    ensures from <= to && from <= grids[i].start && grids[i].start + grids[i].n <= to
    decreases |grids|
  {
    if i > 0 {
      ChainBounds(grids[1..], from + grids[0].n, to, i - 1);
    } else if |grids| > 1 {
      ChainBounds(grids[1..], from + grids[0].n, to, 0);
    }
  }

  // ---------- what can still release the receiver ----------

  /** The done position after the oldest `|made|` grids: each is finished or lost. */
  function DoneAfter(done: nat, grids: seq<Chunk>, made: seq<bool>, slice: nat): nat
    requires 0 < slice && |made| <= |grids|
    decreases |made|
  {
    if made == [] then done
    else DoneAfter(if made[0] then EndOf(grids[0], slice) else done, grids[1..], made[1..], slice)
  }

  /** The furthest the done position can come: the newest grid's end. */
  function Furthest(done: nat, grids: seq<Chunk>, slice: nat): nat
    requires 0 < slice
  {
    if grids == [] then done else EndOf(grids[|grids| - 1], slice)
  }

  /** Some outcome of the pending grids lets the receiver write `n` samples. */
  ghost predicate Releasable(z: Sizes, total: nat, done: nat, grids: seq<Chunk>, n: nat)
    requires z.Valid()
  {
    exists made: seq<bool> :: |made| <= |grids| && total + n - DoneAfter(done, grids, made, z.slice) <= z.Limit()
  }

  lemma {:induction false} NotPastFurthest(done: nat, grids: seq<Chunk>, made: seq<bool>, slice: nat, from: nat, to: nat)
    requires 0 < slice && |made| <= |grids| && Chain(grids, from, to) && done <= from
    ensures DoneAfter(done, grids, made, slice) <= Furthest(done, grids, slice)
    decreases |made|
  {
    if grids != [] {
      var last := |grids| - 1;
      ChainBounds(grids, from, to, last);
      WholeRows(grids[last].n, slice);
      if made != [] {
        WholeRows(grids[0].n, slice);
        var next := if made[0] then EndOf(grids[0], slice) else done;
        NotPastFurthest(next, grids[1..], made[1..], slice, from + grids[0].n, to);
      }
    }
  }

  lemma {:induction false} AllMade(done: nat, grids: seq<Chunk>, slice: nat) returns (made: seq<bool>)
    requires 0 < slice
    ensures |made| == |grids| && DoneAfter(done, grids, made, slice) == Furthest(done, grids, slice)
    decreases |grids|
  {
    if grids == [] {
      made := [];
    } else {
      var rest := AllMade(EndOf(grids[0], slice), grids[1..], slice);
      made := [true] + rest;
      assert made[1..] == rest;
    }
  }

  /** The receiver can still be released if and only if the newest pending grid would do it. */
  lemma {:induction false} ReleasableIff(z: Sizes, total: nat, done: nat, grids: seq<Chunk>, n: nat, from: nat)
    requires z.Valid() && Chain(grids, from, total) && done <= from
    ensures Releasable(z, total, done, grids, n) <==> total + n - Furthest(done, grids, z.slice) <= z.Limit()
  {
    if Releasable(z, total, done, grids, n) {
      var made: seq<bool> :| |made| <= |grids| && total + n - DoneAfter(done, grids, made, z.slice) <= z.Limit();
      NotPastFurthest(done, grids, made, z.slice, from, total);
    }
    if total + n - Furthest(done, grids, z.slice) <= z.Limit() {
      var made := AllMade(done, grids, z.slice);
    }
  }

  class LeadProtocol {
    const z: Sizes
    var total: nat
    var doneEnd: nat
    /** Written chunks whose grids the burst thread has not finished, oldest first. */
    var grids: seq<Chunk>
    /** Samples of the last finished chunk behind its whole rows, and of the chunks whose grids
        were lost since. */
    ghost var tail: nat
    ghost var lost: nat

    ghost predicate Valid()
      reads this
    {
      && z.Valid() && z.Limit() >= 0
      && doneEnd <= total && total <= doneEnd + z.Limit()
      && tail < z.slice && Chain(grids, doneEnd + tail + lost, total)
    }

    constructor (z: Sizes)
      requires z.Valid()
      ensures Valid() && total == 0 && doneEnd == 0 && grids == [] && tail == lost == 0 && this.z == z
    {
      this.z := z;
      total, doneEnd, grids, tail, lost := 0, 0, [], 0, 0;
    }

    /** The receiver's test and, when it passes, the ring write. */
    method Receive(n: nat) returns (written: bool)
      requires Valid() && n <= z.chunk
      modifies `total, `grids
      ensures Valid()
      ensures written <==> old(total) + n - doneEnd <= z.Limit()
      ensures written ==> total == old(total) + n && grids == old(grids) + [Chunk(old(total), n)]
      ensures !written ==> total == old(total) && grids == old(grids)
    {
      written := total + n - doneEnd <= z.Limit();
      if written {
        ChainSnoc(grids, doneEnd + tail + lost, total, n);
        grids := grids + [Chunk(total, n)];
        total := total + n;
      }
    }

    /** The position that finishing the oldest grid publishes. */
    ghost function NextDone(): nat
      requires grids != [] && 0 < z.slice
      reads this
    {
      EndOf(grids[0], z.slice)
    }

    lemma {:induction false} NextDoneFits()
      requires Valid() && grids != []
      ensures doneEnd <= NextDone() <= grids[0].start + grids[0].n <= total
      ensures grids[0].start + grids[0].n - NextDone() < z.slice
    {
      ChainBounds(grids, doneEnd + tail + lost, total, 0);
      WholeRows(grids[0].n, z.slice);
    }

    /** Safety: a burst that starts no further than its reach before the published position,
        and even a guard earlier, has its guarded start in the ring, in every state and so
        however far the receiver has come while the stage reads. */
    lemma {:induction false} BurstIsHeld(start: nat, stop: int)
      requires Valid() && z.Unclamped() && start <= stop
      requires doneEnd - z.Reach() - z.guard <= start
      ensures Oldest(total, z.capacity) <= ReadRange(start, stop, z.guard, z.maxBurst).0
    {
      HeldWhenItFits(z, z.Reach() + z.guard, total, doneEnd, start);
    }

    /** The burst thread has finished the oldest grid and the stage is idle. */
    method FinishGrid()
      requires Valid() && grids != []
      modifies `doneEnd, `grids, `tail, `lost
      ensures Valid() && doneEnd == old(NextDone()) && old(doneEnd) <= doneEnd
      ensures grids == old(grids)[1..] && lost == 0
    {
      NextDoneFits();
      tail := grids[0].start + grids[0].n - NextDone();
      lost := 0;
      doneEnd := grids[0].start + grids[0].n / z.slice * z.slice;
      grids := grids[1..];
    }

    /** A grid that is never made: its worker failed. */
    method LoseGrid()
      requires Valid() && grids != []
      modifies `grids, `lost
      ensures Valid() && grids == old(grids)[1..] && doneEnd == old(doneEnd)
      ensures lost == old(lost) + old(grids)[0].n && tail == old(tail)
    {
      lost := lost + grids[0].n;
      grids := grids[1..];
    }

    /** Some outcome of what is pending still lets the receiver write its chunk. */
    ghost predicate CanGoOn(n: nat)
      requires z.Valid()
      reads this
    {
      Releasable(z, total, doneEnd, grids, n)
    }

    /** In every state: the receiver is held for good if and only if not even the newest
        pending grid would let it write. */
    lemma {:induction false} CanGoOnIff(n: nat)
      requires Valid()
      ensures CanGoOn(n) <==> total + n - Furthest(doneEnd, grids, z.slice) <= z.Limit()
    {
      ReleasableIff(z, total, doneEnd, grids, n, doneEnd + tail + lost);
    }

    /** With nothing pending it is held for good if and only if what was lost since the last
        finished grid, with that grid's tail, exceeds what the limit leaves beside the chunk. */
    lemma {:induction false} HeldForGoodIff(n: nat)
      requires Valid() && grids == []
      ensures !CanGoOn(n) <==> tail + lost > z.Limit() - n
    {
      CanGoOnIff(n);
    }

    /** In whole chunks: so many failures in a row hold the next chunk for good, and no fewer. */
    lemma {:induction false} FailuresHoldIff(k: nat)
      requires Valid() && grids == [] && 0 < z.chunk && tail == 0 && lost == k * z.chunk
      ensures !CanGoOn(z.chunk) <==> k >= z.Limit() / z.chunk
    {
      HeldForGoodIff(z.chunk);
      QuotientBound(z.Limit(), z.chunk, k + 1);
      assert (k + 1) * z.chunk == k * z.chunk + z.chunk;
    }

    /** Progress: once the last written chunk's grid is done, the receiver is not held. */
    lemma {:induction false} NotHeldWhenCaughtUp(last: Chunk, n: nat)
      requires Valid() && n <= z.chunk
      requires last.start + last.n == total && last.n <= z.chunk
      requires doneEnd == last.start + last.n / z.slice * z.slice
      ensures total + n - doneEnd <= z.Limit()
    {
      WholeRows(last.n, z.slice);
    }
  }

  /** Whatever the sizes: as many failing chunks in a row as the limit has room for, and the
      receiver waits with nothing left that could release it. */
  method FailInARow(z: Sizes) returns (l: LeadProtocol)
    requires z.Valid() && 0 < z.chunk
    ensures fresh(l) && l.Valid() && l.z == z && l.grids == [] && l.tail == 0
    ensures l.lost == z.Limit() / z.chunk * z.chunk
    ensures !l.CanGoOn(z.chunk)
  {
    l := new LeadProtocol(z);
    var most := z.Limit() / z.chunk;
    assert 0 <= most;
    for k: nat := 0 to most
      invariant fresh(l) && l.Valid() && l.z == z && l.grids == [] && l.tail == 0
      invariant l.lost == l.total == k * z.chunk && l.doneEnd == 0
    {
      QuotientBound(z.Limit(), z.chunk, k + 1);
      assert (k + 1) * z.chunk == k * z.chunk + z.chunk;
      var written := l.Receive(z.chunk);
      l.LoseGrid();
    }
    l.FailuresHoldIff(most);
  }

  /** Progress needs the grids: in a ring that leaves its full lead, six failing chunks in a
      row hold the receiver for good. */
  method HeldForGood() returns (l: LeadProtocol)
    ensures l.Valid() && l.z.Unclamped() && 0 < l.z.capacity
    ensures l.grids == [] && l.lost == 6 * l.z.chunk && !l.CanGoOn(l.z.chunk)
  {
    var z := Sizes(1000, 100, 10, 10, 200, 5);
    assert z.Limit() == 660;
    l := FailInARow(z);
  }
}
