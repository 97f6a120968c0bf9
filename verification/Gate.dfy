/**
 The isolation gate (`pipeline/isolation.py`, `_gate`): candidates above an SNR, strongest
 first, within a budget per window of one second. The window starts at the first call
 after the last one expired.
 */
module Gate {
  import opened Wrappers

  datatype Candidate = Candidate(snr: real, stopSample: Option<int>)

  // ---------- strongest first ----------

  function Passing(cs: seq<Candidate>, minSnr: real): seq<Candidate> {
    if cs == [] then []
    else
      var c := cs[|cs| - 1];
      Passing(cs[..|cs| - 1], minSnr) + (if c.snr >= minSnr then [c] else [])
  }

  /** `c` behind everything at least as strong. */
  function Place(cs: seq<Candidate>, c: Candidate): seq<Candidate> {
    if cs == [] then [c]
    else if cs[|cs| - 1].snr >= c.snr then cs + [c]
    else Place(cs[..|cs| - 1], c) + [cs[|cs| - 1]]
  }

  /** A stable sort, strongest first. */
  function Strongest(cs: seq<Candidate>): seq<Candidate> {
    if cs == [] then [] else Place(Strongest(cs[..|cs| - 1]), cs[|cs| - 1])
  }

  ghost predicate Descending(cs: seq<Candidate>) {
    forall i, j :: 0 <= i < j < |cs| ==> cs[i].snr >= cs[j].snr
  }

  lemma {:induction false} PlaceHolds(cs: seq<Candidate>, c: Candidate)
    ensures multiset(Place(cs, c)) == multiset(cs) + multiset{c}
  {
    if cs == [] {
    } else if cs[|cs| - 1].snr >= c.snr {
    } else {
      PlaceHolds(cs[..|cs| - 1], c);
      assert cs == cs[..|cs| - 1] + [cs[|cs| - 1]];
    }
  }

  lemma {:induction false} PlaceBounded(cs: seq<Candidate>, c: Candidate, low: real)
    requires low <= c.snr && forall i :: 0 <= i < |cs| ==> low <= cs[i].snr
    ensures forall i :: 0 <= i < |Place(cs, c)| ==> low <= Place(cs, c)[i].snr
  {
    if cs == [] {
    } else if cs[|cs| - 1].snr >= c.snr {
    } else {
      PlaceBounded(cs[..|cs| - 1], c, low);
    }
  }

  lemma {:induction false} PlaceSorts(cs: seq<Candidate>, c: Candidate)
    requires Descending(cs)
    ensures Descending(Place(cs, c))
  {
    if cs == [] {
    } else if cs[|cs| - 1].snr >= c.snr {
    } else {
      PlaceSorts(cs[..|cs| - 1], c);
      PlaceBounded(cs[..|cs| - 1], c, cs[|cs| - 1].snr);
    }
  }

  lemma {:induction false} StrongestSorts(cs: seq<Candidate>)
    ensures Descending(Strongest(cs)) && multiset(Strongest(cs)) == multiset(cs)
  {
    if cs == [] {
    } else {
      StrongestSorts(cs[..|cs| - 1]);
      PlaceSorts(Strongest(cs[..|cs| - 1]), cs[|cs| - 1]);
      PlaceHolds(Strongest(cs[..|cs| - 1]), cs[|cs| - 1]);
      assert cs == cs[..|cs| - 1] + [cs[|cs| - 1]];
    }
  }

  /** The candidates of one SNR, in order. */
  function OfSnr(cs: seq<Candidate>, snr: real): seq<Candidate> {
    if cs == [] then []
    else OfSnr(cs[..|cs| - 1], snr) + (if cs[|cs| - 1].snr == snr then [cs[|cs| - 1]] else [])
  }

  lemma {:induction false} OfSnrSnoc(cs: seq<Candidate>, c: Candidate, snr: real)
    ensures OfSnr(cs + [c], snr) == OfSnr(cs, snr) + (if c.snr == snr then [c] else [])
  {
    assert (cs + [c])[..|cs|] == cs;
  }

  lemma {:induction false} PlaceIsStable(cs: seq<Candidate>, c: Candidate, snr: real)
    requires Descending(cs)
    ensures OfSnr(Place(cs, c), snr) == OfSnr(cs + [c], snr)
  {
    OfSnrSnoc(cs, c, snr);
    if cs != [] && cs[|cs| - 1].snr < c.snr {
      var init, last := cs[..|cs| - 1], cs[|cs| - 1];
      PlaceIsStable(init, c, snr);
      OfSnrSnoc(init, c, snr);
      OfSnrSnoc(Place(init, c), last, snr);
    }
  }

  /** Candidates of equal SNR keep their order. */
  lemma {:induction false} StrongestIsStable(cs: seq<Candidate>, snr: real)
    ensures OfSnr(Strongest(cs), snr) == OfSnr(cs, snr)
  {
    if cs != [] {
      var n := |cs| - 1;
      StrongestIsStable(cs[..n], snr);
      StrongestSorts(cs[..n]);
      PlaceIsStable(Strongest(cs[..n]), cs[n], snr);
      OfSnrSnoc(Strongest(cs[..n]), cs[n], snr);
    }
  }

  /** A prefix holds the first candidates of each SNR. */
  lemma {:induction false} OfSnrPrefix(cs: seq<Candidate>, n: nat, snr: real)
    requires n <= |cs|
    ensures OfSnr(cs[..n], snr) <= OfSnr(cs, snr)
  {
    if n < |cs| {
      var k := |cs| - 1;
      OfSnrPrefix(cs[..k], n, snr);
      assert cs[..k][..n] == cs[..n];
    } else {
      assert cs[..n] == cs;
    }
  }

  // ---------- the budget ----------

  /** The window's start and how many were picked in it. */
  datatype Window = Window(start: real, count: nat)

  /** The window as call at time `now` finds it; a clock that goes back starts a new one. */
  function Current(w: Window, now: real): Window {
    if now < w.start || now - w.start >= 1.0 then Window(now, 0) else w
  }

  function Room(max: int, w: Window): nat {
    if max > w.count then max - w.count else 0
  }

  function MinNat(a: nat, b: nat): nat {
    if a < b then a else b
  }

  /** One call with `passing` candidates: the window after it, and how many it picks. */
  function Call(w: Window, max: int, now: real, passing: nat): (Window, nat) {
    var c := Current(w, now);
    var picked := MinNat(passing, Room(max, c));
    (Window(c.start, c.count + picked), picked)
  }

  /** Everything picked by a run of calls, given as times and numbers of candidates. */
  function PickedBy(w: Window, max: int, calls: seq<(real, nat)>): nat
    decreases |calls|
  {
    if calls == [] then 0
    else
      var r := Call(w, max, calls[0].0, calls[0].1);
      r.1 + PickedBy(r.0, max, calls[1..])
  }

  ghost predicate InOrder(calls: seq<(real, nat)>, from: real, to: real) {
    && (forall i :: 0 <= i < |calls| ==> from <= calls[i].0 < to)
    && forall i, j :: 0 <= i < j < |calls| ==> calls[i].0 <= calls[j].0
  }

  /** Calls that all fall into the current window share its budget. */
  lemma {:induction false} WindowBudget(w: Window, max: nat, calls: seq<(real, nat)>)
    requires w.count <= max && InOrder(calls, w.start, w.start + 1.0)
    ensures PickedBy(w, max, calls) <= max - w.count
    decreases |calls|
  {
    if calls == [] {
    } else {
      assert calls[0].0 - w.start < 1.0;
      WindowBudget(Call(w, max, calls[0].0, calls[0].1).0, max, calls[1..]);
    }
  }

  /** No stretch shorter than a second sees more than twice the budget ... */
  lemma {:induction false} AnySecond(w: Window, max: nat, from: real, calls: seq<(real, nat)>)
    requires w.count <= max && InOrder(calls, from, from + 1.0)
    ensures PickedBy(w, max, calls) <= 2 * max - w.count
    decreases |calls|
  {
    if calls == [] {
    } else {
      var now := calls[0].0;
      var r := Call(w, max, now, calls[0].1);
      if Current(w, now) == w {
        AnySecond(r.0, max, from, calls[1..]);
      } else {
        WindowBudget(r.0, max, calls[1..]);
      }
    }
  }

  /** ... and two windows that meet do see twice the budget within a tenth of one. */
  lemma {:induction false} TwoWindowsMeet(max: nat) returns (w: Window, calls: seq<(real, nat)>)
    ensures w.count <= max && InOrder(calls, 0.9, 1.1)
    ensures PickedBy(w, max, calls) == 2 * max
  {
    w := Window(0.0, 0);
    calls := [(0.9, max), (1.0, max)];
    assert calls[1..] == [(1.0, max)] && calls[1..][1..] == [];
    assert Call(w, max, 0.9, max) == (Window(0.0, max), max);
    assert PickedBy(Window(0.0, max), max, calls[1..]) == max;
  }

  /** Calls at the given times with the given numbers of candidates. */
  function Calls(times: seq<real>, loads: seq<nat>): (r: seq<(real, nat)>)
    requires |times| == |loads|
    ensures |r| == |times| && forall i :: 0 <= i < |r| ==> r[i] == (times[i], loads[i])
  {
    seq(|times|, i requires 0 <= i < |times| => (times[i], loads[i]))
  }

  /** Call times in order, within a stretch shorter than a second. */
  ghost predicate WithinASecond(times: seq<real>, from: real) {
    && (forall i :: 0 <= i < |times| ==> from <= times[i] < from + 1.0)
    && forall i, j :: 0 <= i < j < |times| ==> times[i] <= times[j]
  }

  /** The first call finds a window with room left, and the last one finds that window over. */
  predicate Straddles(w: Window, max: nat, times: seq<real>) {
    && times != [] && w.count < max
    && w.start <= times[0] < w.start + 1.0 <= times[|times| - 1]
  }

  /** Calls at these times never pick more than the budget, however many candidates come. */
  ghost predicate BudgetHolds(w: Window, max: nat, times: seq<real>) {
    forall loads: seq<nat> :: |loads| == |times| ==> PickedBy(w, max, Calls(times, loads)) <= max
  }

  /** The budget per second holds in a stretch shorter than a second exactly when the
      stretch does not run from a window with room left into the next. */
  lemma {:induction false} BudgetHoldsIff(w: Window, max: nat, from: real, times: seq<real>)
    requires w.count <= max && WithinASecond(times, from)
    ensures BudgetHolds(w, max, times) <==> !Straddles(w, max, times)
  {
    hide PickedBy, Straddles, BudgetHolds;
    if Straddles(w, max, times) {
      var loads := Bursts(w, max, times);
      Holds(w, max, times, loads);
    } else {
      forall loads: seq<nat> | |loads| == |times|
        ensures PickedBy(w, max, Calls(times, loads)) <= max
      {
        NotStraddling(w, max, from, times, loads);
      }
      AllHold(w, max, times);
    }
  }

  lemma {:induction false} Holds(w: Window, max: nat, times: seq<real>, loads: seq<nat>)
    requires |loads| == |times|
    ensures BudgetHolds(w, max, times) ==> PickedBy(w, max, Calls(times, loads)) <= max
  {
    hide PickedBy;
  }

  lemma {:induction false} AllHold(w: Window, max: nat, times: seq<real>)
    requires forall loads: seq<nat> :: |loads| == |times| ==> PickedBy(w, max, Calls(times, loads)) <= max
    ensures BudgetHolds(w, max, times)
  {
    hide PickedBy;
  }

  lemma {:induction false} NotStraddling(w: Window, max: nat, from: real, times: seq<real>, loads: seq<nat>)
    requires w.count <= max && WithinASecond(times, from) && |loads| == |times| && !Straddles(w, max, times)
    ensures PickedBy(w, max, Calls(times, loads)) <= max
  {
    hide PickedBy;
    var calls := Calls(times, loads);
    if times == [] {
      NoCalls(w, max);
    } else if w.start <= times[0] < w.start + 1.0 {
      if times[|times| - 1] < w.start + 1.0 {
        WindowBudget(w, max, calls);
      } else {
        AnySecond(w, max, from, calls);
      }
    } else {
      FreshWindow(w, max, calls);
      WindowBudget(Window(times[0], 0), max, calls);
    }
  }

  lemma {:induction false} NoCalls(w: Window, max: nat)
    ensures PickedBy(w, max, []) == 0
  {
  }

  /** Calls that find the window over see a fresh one. */
  lemma {:induction false} FreshWindow(w: Window, max: nat, calls: seq<(real, nat)>)
    requires calls != [] && !(w.start <= calls[0].0 < w.start + 1.0)
    ensures PickedBy(w, max, calls) == PickedBy(Window(calls[0].0, 0), max, calls)
  {
  }

  /** Loads that use up the first window's room and then the second's. */
  lemma {:induction false} Bursts(w: Window, max: nat, times: seq<real>) returns (loads: seq<nat>)
    requires Straddles(w, max, times)
    ensures |loads| == |times| && PickedBy(w, max, Calls(times, loads)) > max
  {
    hide PickedBy;
    var n := |times| - 1;
    loads := [max] + seq(n, i => if i == n - 1 then max else 0);
    var calls := Calls(times, loads);
    var full := Window(w.start, max);
    FirstCall(w, max, calls);
    QuietThenFull(full, max, calls[1..]);
  }

  lemma {:induction false} FirstCall(w: Window, max: nat, calls: seq<(real, nat)>)
    requires calls != [] && w.count < max && w.start <= calls[0].0 < w.start + 1.0 && calls[0].1 == max
    ensures PickedBy(w, max, calls) == max - w.count + PickedBy(Window(w.start, max), max, calls[1..])
  {
  }

  /** Calls without candidates, then one with `max` after the window is over. */
  lemma {:induction false} QuietThenFull(w: Window, max: nat, calls: seq<(real, nat)>)
    requires calls != [] && calls[|calls| - 1].1 == max
    requires w.count == 0 || (w.count == max && w.start + 1.0 <= calls[|calls| - 1].0)
    requires forall i :: 0 <= i < |calls| - 1 ==> calls[i].1 == 0
    ensures PickedBy(w, max, calls) >= max
    decreases |calls|
  {
    if 1 < |calls| {
      QuietThenFull(Call(w, max, calls[0].0, calls[0].1).0, max, calls[1..]);
    }
  }

  // ---------- the gate ----------

  /** The newest stop sample, when any candidate has one. */
  function NewestStop(cs: seq<Candidate>): Option<int> {
    if cs == [] then None
    else
      var rest, own := NewestStop(cs[..|cs| - 1]), cs[|cs| - 1].stopSample;
      if own.None? then rest
      else if rest.Some? && rest.value > own.value then rest else own
  }

  /** Stream time when the bursts carry positions, else the clock. */
  function Now(cs: seq<Candidate>, rate: real, clock: real): real {
    var stop := NewestStop(cs);
    if stop.Some? && 0.0 < rate then stop.value as real / rate else clock
  }

  class BurstGate {
    const minSnr: real
    const maxPerSec: int
    var windowStart: real
    var windowCount: nat
    var picked: nat
    var gatedOut: nat

    ghost function State(): Window
      reads this
    {
      Window(windowStart, windowCount)
    }

    constructor (minSnr: real, maxPerSec: int)
      ensures this.minSnr == minSnr && this.maxPerSec == maxPerSec
      ensures picked == 0 && gatedOut == 0 && windowCount == 0 && windowStart == -1000000000000000000.0
    {
      this.minSnr, this.maxPerSec := minSnr, maxPerSec;
      windowStart := -1000000000000000000.0;
      windowCount, picked, gatedOut := 0, 0, 0;
    }

    /** Picks the strongest of the passing candidates, as many as the window has room for. */
    method Pick(cs: seq<Candidate>, rate: real, clock: real) returns (chosen: seq<Candidate>)
      modifies this
      ensures var r := Call(old(State()), maxPerSec, Now(cs, rate, clock), |Passing(cs, minSnr)|);
        && State() == r.0
        && |chosen| == r.1
      ensures |chosen| < |Passing(cs, minSnr)| ==> maxPerSec <= windowCount
      ensures picked == old(picked) + |chosen|
      ensures gatedOut + |chosen| == old(gatedOut) + |cs|
      ensures multiset(chosen) <= multiset(Passing(cs, minSnr)) && Descending(chosen)
      ensures forall c, d :: c in chosen && d in multiset(Passing(cs, minSnr)) - multiset(chosen) ==> c.snr >= d.snr
      ensures forall snr :: OfSnr(chosen, snr) <= OfSnr(Passing(cs, minSnr), snr)
    {
      hide Strongest, Passing, Descending, Now, NewestStop, OfSnr;
      var passed := Strongest(Passing(cs, minSnr));
      StrongestSorts(Passing(cs, minSnr));
      PassingCount(cs, minSnr);
      SameSize(passed, Passing(cs, minSnr));
      var now := Now(cs, rate, clock);
      if now < windowStart || now - windowStart >= 1.0 {
        windowStart, windowCount := now, 0;
      }
      var room := Room(maxPerSec, Window(windowStart, windowCount));
      chosen := passed[..MinNat(|passed|, room)];
      windowCount := windowCount + |chosen|;
      picked := picked + |chosen|;
      gatedOut := gatedOut + (|cs| - |chosen|);
      RestIsWeaker(passed, |chosen|);
      PrefixDescends(passed, |chosen|);
      forall snr
        ensures OfSnr(chosen, snr) <= OfSnr(Passing(cs, minSnr), snr)
      {
        StrongestIsStable(Passing(cs, minSnr), snr);
        OfSnrPrefix(passed, |chosen|, snr);
      }
    }
  }

  /** Passing are exactly the candidates of at least the SNR, as often and in the order in which
      they came. */
  lemma {:induction false} PassingOfSnr(cs: seq<Candidate>, minSnr: real, snr: real)
    ensures OfSnr(Passing(cs, minSnr), snr) == if snr >= minSnr then OfSnr(cs, snr) else []
  {
    if cs == [] {
    } else {
      var n := |cs| - 1;
      PassingOfSnr(cs[..n], minSnr, snr);
      if cs[n].snr >= minSnr {
        OfSnrSnoc(Passing(cs[..n], minSnr), cs[n], snr);
      } else {
        assert Passing(cs, minSnr) == Passing(cs[..n], minSnr);
      }
    }
  }

  /** The stream time is that of the last stop sample; without one the host's clock counts. */
  lemma {:induction false} NowIs(cs: seq<Candidate>, rate: real, clock: real)
    ensures 0.0 < rate && (exists i :: 0 <= i < |cs| && cs[i].stopSample.Some?) ==>
      && (exists i :: 0 <= i < |cs| && cs[i].stopSample.Some?
                      && Now(cs, rate, clock) * rate == cs[i].stopSample.value as real)
      && (forall i :: 0 <= i < |cs| && cs[i].stopSample.Some? ==>
            cs[i].stopSample.value as real <= Now(cs, rate, clock) * rate)
    ensures rate <= 0.0 || (forall i :: 0 <= i < |cs| ==> cs[i].stopSample == None) ==> Now(cs, rate, clock) == clock
  {
    hide NewestStop;
    NewestStopIs(cs);
    if 0.0 < rate && NewestStop(cs).Some? {
      assert Now(cs, rate, clock) * rate == NewestStop(cs).value as real;
    }
  }

  lemma {:induction false} NewestStopIs(cs: seq<Candidate>)
    ensures NewestStop(cs).Some? <==> exists i :: 0 <= i < |cs| && cs[i].stopSample.Some?
    ensures NewestStop(cs).Some? ==>
      && (exists i :: 0 <= i < |cs| && cs[i].stopSample == NewestStop(cs))
      && (forall i :: 0 <= i < |cs| && cs[i].stopSample.Some? ==> cs[i].stopSample.value <= NewestStop(cs).value)
  {
    if cs == [] {
    } else {
      var n := |cs| - 1;
      NewestStopIs(cs[..n]);
      assert forall i :: 0 <= i < n ==> cs[..n][i] == cs[i];
      if NewestStop(cs[..n]).Some? {
        var i :| 0 <= i < n && cs[..n][i].stopSample == NewestStop(cs[..n]);
        assert cs[i].stopSample == NewestStop(cs[..n]);
      }
    }
  }

  lemma {:induction false} PassingCount(cs: seq<Candidate>, minSnr: real)
    ensures |Passing(cs, minSnr)| <= |cs|
    ensures forall c :: c in Passing(cs, minSnr) <==> c in cs && c.snr >= minSnr
  {
    if cs == [] {
    } else {
      PassingCount(cs[..|cs| - 1], minSnr);
      assert cs == cs[..|cs| - 1] + [cs[|cs| - 1]];
    }
  }

  lemma {:induction false} PrefixDescends(cs: seq<Candidate>, n: nat)
    requires Descending(cs) && n <= |cs|
    ensures Descending(cs[..n])
  {
  }

  lemma {:induction false} SameSize<T>(a: seq<T>, b: seq<T>)
    requires multiset(a) == multiset(b)
    ensures |a| == |b|
  {
    assert |multiset(a)| == |a| && |multiset(b)| == |b|;
  }

  lemma {:induction false} RestOf<T>(s: seq<T>, n: nat)
    requires n <= |s|
    ensures multiset(s[..n]) <= multiset(s)
    ensures multiset(s) - multiset(s[..n]) == multiset(s[n..])
  {
    assert s == s[..n] + s[n..];
  }

  /** Cutting a descending sequence leaves the weaker ones behind. */
  lemma {:induction false} RestIsWeaker(cs: seq<Candidate>, n: nat)
    requires Descending(cs) && n <= |cs|
    ensures multiset(cs[..n]) <= multiset(cs)
    ensures forall c, d :: c in cs[..n] && d in multiset(cs) - multiset(cs[..n]) ==> c.snr >= d.snr
  {
    RestOf(cs, n);
    forall c, d | c in cs[..n] && d in cs[n..]
      ensures c.snr >= d.snr
    {
      var i :| 0 <= i < n && cs[..n][i] == c;
      var j :| 0 <= j < |cs| - n && cs[n..][j] == d;
      assert cs[i] == c && cs[n + j] == d;
    }
  }
}
