/**
 The burst isolation stage (`pipeline/isolation.py`): submitters, one worker and one
 stopper share a bounded queue, a stop flag, counters and a slot count. Each method is one
 atomic step of one thread, enabled by its `requires`; every order of steps is a run, and
 each step keeps `Valid`.
 */
module Isolation {

  const MAX_WHOLE_CAPTURE_BATCHES := 2

  /** A batch of `n` candidates; `whole` when it pins a whole capture. */
  datatype Batch = Batch(n: nat, whole: bool)

  datatype Item = Work(batch: Batch) | Sentinel

  datatype Outcome = Isolated | Expired | TooLong | Failed

  datatype Counts = Counts(received: nat, queueFull: nat, gatedOut: nat,
                           isolated: nat, expired: nat, tooLong: nat, error: nat)
  {
    /** What is counted as settled (`pipeline/replay.py`). */
    function Settled(): nat {
      gatedOut + queueFull + isolated + expired + tooLong + error
    }

    function Add(o: Outcome): Counts {
      match o
      case Isolated => this.(isolated := isolated + 1)
      case Expired => this.(expired := expired + 1)
      case TooLong => this.(tooLong := tooLong + 1)
      case Failed => this.(error := error + 1)
    }
  }

  /** The submit lock: free, held by a submitter that counted its batch, or by one whose
      whole capture is queued and not yet counted as pending. */
  datatype Lock = Free | Entered(batch: Batch) | Queued

  /** One pass of draining the queue: between items, with an item to release, with an item
      to count, or finding the queue empty. */
  datatype Drain = Pulling | Holding(b: Batch) | Counting(b: Batch) | Emptied

  datatype Worker =
    | AtTest
    | Getting
    | Gating(b: Batch)
    | Settling(b: Batch, left: nat)
    | Releasing(b: Batch)
    | Finishing
    | Draining(d: Drain)
    | Exited

  datatype Stopper = Idle | First(d: Drain) | Joining | Last(d: Drain)

  // ---------- what is where ----------

  function CandidatesIn(q: seq<Item>): nat {
    if q == [] then 0 else CandidatesIn(q[1..]) + (match q[0] case Work(b) => b.n case Sentinel => 0)
  }

  function WholesIn(q: seq<Item>): nat {
    if q == [] then 0 else WholesIn(q[1..]) + (match q[0] case Work(b) => One(b.whole) case Sentinel => 0)
  }

  function One(b: bool): nat {
    if b then 1 else 0
  }

  function CandidatesDrained(d: Drain): nat {
    if d.Holding? || d.Counting? then d.b.n else 0
  }

  function WholesDrained(d: Drain): nat {
    if d.Holding? then One(d.b.whole) else 0
  }

  /** Candidates that the worker has taken and not yet settled. */
  function CandidatesAt(w: Worker): nat {
    match w
    case Gating(b) => b.n
    case Settling(_, left) => left
    case Draining(d) => CandidatesDrained(d)
    case _ => 0
  }

  function WholesAt(w: Worker): nat {
    match w
    case Gating(b) => One(b.whole)
    case Settling(b, _) => One(b.whole)
    case Releasing(b) => One(b.whole)
    case Draining(d) => WholesDrained(d)
    case _ => 0
  }

  /** The worker has taken an item that it has not reported done to the queue. */
  predicate AtWork(w: Worker) {
    w.Gating? || w.Settling? || w.Releasing? || w.Finishing?
  }

  function CandidatesStopped(s: Stopper): nat {
    if s.First? || s.Last? then CandidatesDrained(s.d) else 0
  }

  function WholesStopped(s: Stopper): nat {
    if s.First? || s.Last? then WholesDrained(s.d) else 0
  }

  lemma {:induction false} PutCounts(q: seq<Item>, i: Item)
    ensures CandidatesIn(q + [i]) == CandidatesIn(q) + CandidatesIn([i])
    ensures WholesIn(q + [i]) == WholesIn(q) + WholesIn([i])
  {
    if q == [] {
      assert q + [i] == [i];
    } else {
      PutCounts(q[1..], i);
      assert (q + [i])[1..] == q[1..] + [i];
    }
  }

  class IsolationStage {
    const capacity: nat
    var queue: seq<Item>
    /** The queue's count of items put and not reported done. */
    var unfinished: nat
    var stopEvent: bool
    var wholePending: nat
    var counts: Counts
    var lock: Lock
    var worker: Worker
    var stopper: Stopper
    /** The stage holds a thread object, which may have exited. */
    var hasThread: bool
    /** Candidates of batches that `process_batch` gave up on by raising. */
    ghost var abandoned: nat

    /** Candidates queued or in some thread's hands. */
    ghost function Pending(): nat
      reads `queue, `lock, `worker, `stopper
    {
      CandidatesIn(queue) + CandidatesAt(worker) + CandidatesStopped(stopper) + (if lock.Entered? then lock.batch.n else 0)
    }

    /** Whole-capture batches queued or in flight. */
    ghost function Wholes(): nat
      reads `queue, `worker, `stopper
    {
      WholesIn(queue) + WholesAt(worker) + WholesStopped(stopper)
    }

    /** Every candidate received is settled, pending, or lost to a raised exception. */
    ghost predicate Conserved()
      reads `queue, `lock, `worker, `stopper, `counts, `abandoned
    {
      counts.received == counts.Settled() + Pending() + abandoned
    }

    /** The slot count is the number of whole captures held, but for one being added. */
    ghost predicate SlotsOk()
      reads `queue, `lock, `worker, `stopper, `wholePending
    {
      Wholes() == wholePending + One(lock.Queued?) && Wholes() <= MAX_WHOLE_CAPTURE_BATCHES
    }

    ghost predicate UnfinishedOk()
      reads `queue, `worker, `unfinished
    {
      unfinished == |queue| + One(AtWork(worker))
    }

    /** A stop under way: no submitter is inside the queue, a finished first drain left the
        queue empty, from then on at most the sentinel is in it, and the last drain runs without
        a worker and holds nothing. */
    ghost predicate StopOk()
      reads `queue, `lock, `worker, `stopper, `stopEvent
    {
      && (!stopper.Idle? ==> stopEvent && !lock.Queued?)
      && (stopper == First(Emptied) ==> queue == [])
      && (stopper.Joining? || stopper.Last? ==> queue == [] || queue == [Sentinel])
      && (stopper.Last? ==> worker.Exited? && (stopper.d.Pulling? || stopper.d.Emptied?))
      && (stopper == Last(Emptied) ==> queue == [])
    }

    ghost predicate Valid()
      reads this
    {
      0 < capacity && |queue| <= capacity && Conserved() && SlotsOk() && UnfinishedOk() && StopOk()
    }

    constructor (queueMax: int)
      ensures Valid() && queue == [] && worker == Exited && stopper == Idle && lock == Free && !stopEvent
      ensures counts == Counts(0, 0, 0, 0, 0, 0, 0) && abandoned == 0
      ensures 1 <= capacity && queueMax <= capacity && capacity in {1, queueMax}
    {
      capacity := if 1 < queueMax then queueMax else 1;
      queue, unfinished, stopEvent, wholePending, counts := [], 0, false, 0, Counts(0, 0, 0, 0, 0, 0, 0);
      lock, worker, stopper, hasThread, abandoned := Free, Exited, Idle, false, 0;
      new;
      assert Pending() == 0 && Wholes() == 0;
      assert Conserved() && SlotsOk() && UnfinishedOk() && StopOk();
    }

    // ---------- submitters ----------

    /** A submitter takes the lock and counts its batch as received. */
    method SubmitEnter(batch: Batch)
      requires Valid() && lock == Free
      modifies `lock, `counts
      ensures Valid() && lock == Entered(batch)
      ensures counts == old(counts).(received := old(counts).received + batch.n)
    {
      counts := counts.(received := counts.received + batch.n);
      lock := Entered(batch);
    }

    /** Refuses the batch or queues it. */
    method SubmitPut() returns (accepted: bool)
      requires Valid() && lock.Entered?
      modifies `lock, `counts, `queue, `unfinished
      ensures Valid()
      ensures accepted <==> !stopEvent && |old(queue)| < capacity
                            && !(old(lock).batch.whole && wholePending >= MAX_WHOLE_CAPTURE_BATCHES)
      ensures accepted ==> queue == old(queue) + [Work(old(lock).batch)] && counts == old(counts)
                           && lock == if old(lock).batch.whole then Queued else Free
      ensures !accepted ==> queue == old(queue) && lock == Free
                            && counts == old(counts).(queueFull := old(counts).queueFull + old(lock).batch.n)
    {
      var batch := lock.batch;
      PutCounts(queue, Work(batch));
      accepted := !(stopEvent || (batch.whole && wholePending >= MAX_WHOLE_CAPTURE_BATCHES) || |queue| == capacity);
      if accepted {
        queue := queue + [Work(batch)];
        unfinished := unfinished + 1;
        lock := if batch.whole then Queued else Free;
      } else {
        counts := counts.(queueFull := counts.queueFull + batch.n);
        lock := Free;
      }
    }

    /** Counts the whole capture's slot and gives the lock back. */
    method SubmitLeave()
      requires Valid() && lock == Queued
      modifies `lock, `wholePending
      ensures Valid() && lock == Free && wholePending == old(wholePending) + 1
    {
      wholePending := wholePending + 1;
      lock := Free;
    }

    // ---------- the worker ----------

    /** A new worker thread; the caller is not inside `Stop`. */
    method Start()
      requires Valid() && worker == Exited && stopper == Idle
      modifies `worker, `stopEvent, `hasThread
      ensures Valid() && worker == AtTest && !stopEvent && hasThread
    {
      stopEvent := false;
      hasThread := true;
      worker := AtTest;
    }

    method TestStop()
      requires Valid() && worker == AtTest
      modifies `worker
      ensures Valid() && worker == if stopEvent then Draining(Pulling) else Getting
    {
      worker := if stopEvent then Draining(Pulling) else Getting;
    }

    /** The blocking get returns the oldest item. A sentinel is reported done at once. */
    method Get()
      requires Valid() && worker == Getting && queue != []
      modifies `worker, `queue, `unfinished
      ensures Valid() && queue == old(queue)[1..]
      ensures worker == match old(queue)[0] { case Work(b) => Gating(b) case Sentinel => Draining(Pulling) }
    {
      if queue[0].Sentinel? {
        unfinished := unfinished - 1;
      }
      worker := match queue[0] { case Work(b) => Gating(b) case Sentinel => Draining(Pulling) };
      queue := queue[1..];
    }

    /** The gate picks some of the candidates and counts the others as gated out. */
    method Gate(picked: nat)
      requires Valid() && worker.Gating? && picked <= worker.b.n
      modifies `worker, `counts
      ensures Valid() && worker == Settling(old(worker).b, picked)
      ensures counts == old(counts).(gatedOut := old(counts).gatedOut + (old(worker).b.n - picked))
    {
      counts := counts.(gatedOut := counts.gatedOut + (worker.b.n - picked));
      worker := Settling(worker.b, picked);
    }

    /** One picked burst ends in one state, which is counted. */
    method SettleOne(o: Outcome)
      requires Valid() && worker.Settling? && 0 < worker.left
      modifies `worker, `counts
      ensures Valid() && worker == Settling(old(worker).b, old(worker).left - 1)
      ensures counts.isolated == old(counts).isolated + One(o == Isolated)
      ensures counts.expired == old(counts).expired + One(o == Expired)
      ensures counts.tooLong == old(counts).tooLong + One(o == TooLong)
      ensures counts.error == old(counts).error + One(o == Failed)
      ensures counts.received == old(counts).received && counts.queueFull == old(counts).queueFull
      ensures counts.gatedOut == old(counts).gatedOut
    {
      counts := counts.Add(o);
      worker := Settling(worker.b, worker.left - 1);
    }

    method FinishBatch()
      requires Valid() && worker.Settling? && worker.left == 0
      modifies `worker
      ensures Valid() && worker == Releasing(old(worker).b)
    {
      worker := Releasing(worker.b);
    }

    /** `process_batch` raises: the rest of the batch is never counted. */
    method Raise()
      requires Valid() && (worker.Gating? || worker.Settling?)
      modifies `worker, `abandoned
      ensures Valid() && worker == Releasing(old(worker).b)
      ensures abandoned == old(abandoned) + CandidatesAt(old(worker))
    {
      abandoned := abandoned + CandidatesAt(worker);
      worker := Releasing(worker.b);
    }

    /** Frees the batch's capture slot, under the lock. */
    method Release()
      requires Valid() && worker.Releasing? && lock == Free
      modifies `worker, `wholePending
      ensures Valid() && worker == Finishing
      ensures wholePending == old(wholePending) - One(old(worker).b.whole)
    {
      if worker.b.whole {
        wholePending := wholePending - 1;
      }
      worker := Finishing;
    }

    /** Reports the batch done to the queue. */
    method TaskDone()
      requires Valid() && worker == Finishing
      modifies `worker, `unfinished
      ensures Valid() && worker == AtTest && unfinished == old(unfinished) - 1
    {
      unfinished := unfinished - 1;
      worker := AtTest;
    }

    /** Takes the next item off the queue without waiting and reports it done; sentinels are
        passed over. */
    method Pull() returns (d: Drain)
      requires |queue| <= capacity && UnfinishedOk()
      modifies `queue, `unfinished
      ensures UnfinishedOk()
      ensures |queue| <= |old(queue)|
      ensures d == if old(queue) == [] then Emptied
                   else match old(queue)[0] { case Work(b) => Holding(b) case Sentinel => Pulling }
      ensures queue == if old(queue) == [] then [] else old(queue)[1..]
    {
      if queue == [] {
        d := Emptied;
      } else {
        d := match queue[0] { case Work(b) => Holding(b) case Sentinel => Pulling };
        queue := queue[1..];
        unfinished := unfinished - 1;
      }
    }

    method WorkerPull()
      requires Valid() && worker == Draining(Pulling)
      modifies `worker, `queue, `unfinished
      ensures Valid()
      ensures old(queue) == [] ==> worker == Draining(Emptied) && queue == []
      ensures old(queue) != [] ==>
        && queue == old(queue)[1..]
        && worker == Draining(match old(queue)[0] { case Work(b) => Holding(b) case Sentinel => Pulling })
    {
      var d := Pull();
      worker := Draining(d);
    }

    method WorkerDrainRelease()
      requires Valid() && worker.Draining? && worker.d.Holding? && lock == Free
      modifies `worker, `wholePending
      ensures Valid() && worker == Draining(Counting(old(worker).d.b))
      ensures wholePending == old(wholePending) - One(old(worker).d.b.whole)
    {
      if worker.d.b.whole {
        wholePending := wholePending - 1;
      }
      worker := Draining(Counting(worker.d.b));
    }

    method WorkerDrainCount()
      requires Valid() && worker.Draining? && worker.d.Counting?
      modifies `worker, `counts
      ensures Valid() && worker == Draining(Pulling)
      ensures counts == old(counts).(queueFull := old(counts).queueFull + old(worker).d.b.n)
    {
      counts := counts.(queueFull := counts.queueFull + worker.d.b.n);
      worker := Draining(Pulling);
    }

    method Exit()
      requires Valid() && worker == Draining(Emptied)
      modifies `worker
      ensures Valid() && worker == Exited
    {
      worker := Exited;
    }

    // ---------- the stopper ----------

    /** Sets the stop flag under the lock. */
    method StopSignal()
      requires Valid() && stopper == Idle && lock == Free && hasThread
      modifies `stopper, `stopEvent
      ensures Valid() && stopper == First(Pulling) && stopEvent
    {
      stopEvent := true;
      stopper := First(Pulling);
    }

    method StopPull()
      requires Valid() && (stopper == First(Pulling) || stopper == Last(Pulling))
      modifies `stopper, `queue, `unfinished
      ensures Valid()
      ensures old(queue) == [] ==> stopper == old(stopper).(d := Emptied) && queue == []
      ensures old(queue) != [] ==>
        && queue == old(queue)[1..]
        && stopper == old(stopper).(d := match old(queue)[0] { case Work(b) => Holding(b) case Sentinel => Pulling })
    {
      var d := Pull();
      stopper := stopper.(d := d);
    }

    method StopDrainRelease()
      requires Valid() && (stopper.First? || stopper.Last?) && stopper.d.Holding? && lock == Free
      modifies `stopper, `wholePending
      ensures Valid() && stopper == old(stopper).(d := Counting(old(stopper).d.b))
      ensures wholePending == old(wholePending) - One(old(stopper).d.b.whole)
    {
      if stopper.d.b.whole {
        wholePending := wholePending - 1;
      }
      stopper := stopper.(d := Counting(stopper.d.b));
    }

    method StopDrainCount()
      requires Valid() && (stopper.First? || stopper.Last?) && stopper.d.Counting?
      modifies `stopper, `counts
      ensures Valid() && stopper == old(stopper).(d := Pulling)
      ensures counts == old(counts).(queueFull := old(counts).queueFull + old(stopper).d.b.n)
    {
      counts := counts.(queueFull := counts.queueFull + stopper.d.b.n);
      stopper := stopper.(d := Pulling);
    }

    /** Queues the sentinel. The source ignores a full queue here; it never is, so a worker
        waiting in `Get` is always woken. */
    method StopPost()
      requires Valid() && stopper == First(Emptied)
      modifies `stopper, `queue, `unfinished
      ensures Valid() && stopper == Joining
      ensures queue == [Sentinel]
    {
      if |queue| < capacity {
        PutCounts(queue, Sentinel);
        queue := queue + [Sentinel];
        unfinished := unfinished + 1;
      }
      stopper := Joining;
    }

    /** The join ends: the worker has exited, or the timeout passed. */
    method StopJoin() returns (joined: bool)
      requires Valid() && stopper == Joining
      modifies `stopper, `hasThread
      ensures Valid() && (joined <==> worker == Exited) && hasThread == (old(hasThread) && !joined)
      ensures stopper == if joined then Last(Pulling) else Idle
    {
      hasThread := hasThread && worker != Exited;
      joined := worker == Exited;
      stopper := if joined then Last(Pulling) else Idle;
    }

    /** A stop that joined leaves nothing behind. */
    method StopReturn()
      requires Valid() && stopper == Last(Emptied)
      modifies `stopper
      ensures Valid() && stopper == Idle
      ensures queue == [] && worker == Exited && stopEvent
      ensures lock == Free ==> wholePending == 0 && counts.received == counts.Settled() + abandoned
    {
      stopper := Idle;
    }

    // ---------- a lossless replay ----------

    /** The test of a replay that waits for the stage: nothing is unfinished, or it stops. */
    method TestIdle() returns (idle: bool)
      requires Valid()
      ensures idle && !stopEvent ==> queue == [] && !AtWork(worker)
      ensures !idle ==> !stopEvent && (queue != [] || AtWork(worker))
    {
      idle := unfinished == 0 || stopEvent;
    }

    /** No thread is in the middle of a submit or holds an item that it drained. */
    predicate NobodyHolds()
      reads this
    {
      && lock == Free
      && (worker.Draining? ==> worker.d.Pulling? || worker.d.Emptied?)
      && (stopper.First? || stopper.Last? ==> stopper.d.Pulling? || stopper.d.Emptied?)
    }

    /** Nothing is unfinished exactly when the queue is empty and the worker has no batch. Then
        everything received is settled or was abandoned and no slot is held, unless a thread
        is in the middle of a submit or a drain. */
    lemma {:induction false} UnfinishedIff()
      requires Valid()
      ensures unfinished == 0 <==> queue == [] && !AtWork(worker)
      ensures unfinished == 0 && NobodyHolds() ==>
        counts.received == counts.Settled() + abandoned && wholePending == 0
    {
    }

    // ---------- what holds in every state ----------

    /** Once the sentinel was queued no batch is in the queue, whatever submitters and the
        worker do meanwhile: the last drain can find a sentinel, and no candidate or slot. */
    lemma {:induction false} LastDrainFindsNoBatch()
      requires Valid() && (stopper.Joining? || stopper.Last?)
      ensures queue == [] || queue == [Sentinel]
      ensures CandidatesIn(queue) == 0 && WholesIn(queue) == 0
      ensures CandidatesStopped(stopper) == 0 && WholesStopped(stopper) == 0
    {
    }

    /** The replay's test: everything received is settled exactly when no candidate is
        queued or in any thread's hands, and none was lost to an exception. */
    lemma {:induction false} SettledIff()
      requires Valid()
      ensures counts.Settled() >= counts.received <==> Pending() == 0 && abandoned == 0
      ensures counts.Settled() <= counts.received
    {
    }

    /** No batch with a candidate is queued, under way or being drained once all is settled. */
    lemma {:induction false} SettledMeansIdle()
      requires Valid() && counts.Settled() >= counts.received
      ensures forall i :: 0 <= i < |queue| && queue[i].Work? ==> queue[i].batch.n == 0
      ensures worker.Gating? ==> worker.b.n == 0
      ensures worker.Settling? ==> worker.left == 0
    {
      NoCandidates(queue);
    }

    static lemma {:induction false} NoCandidates(q: seq<Item>)
      requires CandidatesIn(q) == 0
      ensures forall i :: 0 <= i < |q| && q[i].Work? ==> q[i].batch.n == 0
    {
      if q == [] {
      } else {
        NoCandidates(q[1..]);
        assert forall i :: 1 <= i < |q| ==> q[i] == q[1..][i - 1];
      }
    }

    /** The slot count never exceeds its bound, and counts what is held when nobody is
        inside `submit`. */
    lemma {:induction false} SlotsBounded()
      requires Valid()
      ensures wholePending <= 2
      ensures lock != Queued ==> wholePending == Wholes()
    {
    }
  }

  /** The last drain is needed: a worker that sees the flag before the sentinel is queued
      leaves the sentinel behind, and the next worker would stop on it at once. */
  method SentinelLeftBehind() returns (s: IsolationStage)
    ensures s.Valid() && s.stopper == Last(Pulling) && s.queue == [Sentinel]
  {
    s := new IsolationStage(1);
    s.Start();
    s.StopSignal();
    s.TestStop();
    s.WorkerPull();
    s.Exit();
    s.StopPull();
    s.StopPost();
    var joined := s.StopJoin();
  }
}
