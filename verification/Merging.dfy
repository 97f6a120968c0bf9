/**
 Merging bursts that are close in frequency and time (`processing/burst.py`,
 `_merge_bursts`): one sweep over the bursts in order of their start.
 */
module Merging {
  import opened Arith

  datatype Burst = Burst(start: real, stop: real, center: real, bandwidth: real, peak: real, peakFreq: real)
  {
    function Lo(): real {
      center - bandwidth / 2.0
    }

    function Hi(): real {
      center + bandwidth / 2.0
    }
  }

  /** The bursts overlap in frequency within `tol`, and `next` starts at most `gap` after
      `cur` has stopped. */
  predicate Close(cur: Burst, next: Burst, gap: real, tol: real) {
    cur.Lo() - tol <= next.Hi() && cur.Hi() + tol >= next.Lo() && next.start - cur.stop <= gap
  }

  function Distance(x: real, y: real): real {
    if x < y then y - x else x - y
  }

  /** The test on edges says exactly that the centres are no further apart than half of both
      bandwidths and the tolerance. */
  lemma {:induction false} CloseIff(cur: Burst, next: Burst, gap: real, tol: real)
    ensures Close(cur, next, gap, tol) <==>
      && Distance(cur.center, next.center) <= cur.bandwidth / 2.0 + next.bandwidth / 2.0 + tol
      && next.start <= cur.stop + gap
  {
  }

  function Joined(cur: Burst, next: Burst): Burst {
    var lo, hi := MinReal(cur.Lo(), next.Lo()), MaxReal(cur.Hi(), next.Hi());
    Burst(cur.start, MaxReal(cur.stop, next.stop), (lo + hi) / 2.0, hi - lo, MaxReal(cur.peak, next.peak),
          if cur.peak >= next.peak then cur.peakFreq else next.peakFreq)
  }

  /** `m` is the smallest burst that covers all of `group`, with the peak of its first
      strongest member. */
  ghost predicate IsHull(m: Burst, group: seq<Burst>) {
    && (forall i :: 0 <= i < |group| ==>
          m.start <= group[i].start && group[i].stop <= m.stop && m.Lo() <= group[i].Lo() && group[i].Hi() <= m.Hi())
    && (exists i :: 0 <= i < |group| && group[i].start == m.start)
    && (exists i :: 0 <= i < |group| && group[i].stop == m.stop)
    && (exists i :: 0 <= i < |group| && group[i].Lo() == m.Lo())
    && (exists i :: 0 <= i < |group| && group[i].Hi() == m.Hi())
    && (exists i :: 0 <= i < |group| && group[i].peak == m.peak && group[i].peakFreq == m.peakFreq
          && (forall j :: 0 <= j < i ==> group[j].peak < m.peak))
    && (forall i :: 0 <= i < |group| ==> group[i].peak <= m.peak)
  }

  lemma {:induction false} HullOfOne(b: Burst)
    ensures IsHull(b, [b])
  {
    assert [b][0] == b;
  }

  /** The edges of a joined burst. */
  lemma {:induction false} JoinedEdges(cur: Burst, next: Burst)
    ensures Joined(cur, next).Lo() == MinReal(cur.Lo(), next.Lo())
    ensures Joined(cur, next).Hi() == MaxReal(cur.Hi(), next.Hi())
  {
    var lo, hi := MinReal(cur.Lo(), next.Lo()), MaxReal(cur.Hi(), next.Hi());
    assert (lo + hi) / 2.0 - (hi - lo) / 2.0 == lo;
    assert (lo + hi) / 2.0 + (hi - lo) / 2.0 == hi;
  }

  lemma {:induction false} HullGrows(m: Burst, group: seq<Burst>, next: Burst)
    requires IsHull(m, group) && m.start <= next.start
    ensures IsHull(Joined(m, next), group + [next])
  {
    hide Burst.Lo, Burst.Hi;
    JoinedEdges(m, next);
    var g, r := group + [next], Joined(m, next);
    assert g[|group|] == next && forall i :: 0 <= i < |group| ==> g[i] == group[i];
    var s :| 0 <= s < |group| && group[s].start == m.start;
    var t :| 0 <= t < |group| && group[t].stop == m.stop;
    var l :| 0 <= l < |group| && group[l].Lo() == m.Lo();
    var h :| 0 <= h < |group| && group[h].Hi() == m.Hi();
    var p :| 0 <= p < |group| && group[p].peak == m.peak && group[p].peakFreq == m.peakFreq
             && (forall j :: 0 <= j < p ==> group[j].peak < m.peak);
    assert g[s].start == r.start;
    assert g[if m.stop < next.stop then |group| else t].stop == r.stop;
    assert g[if m.Lo() < next.Lo() then l else |group|].Lo() == r.Lo();
    assert g[if m.Hi() < next.Hi() then |group| else h].Hi() == r.Hi();
    var q := if m.peak >= next.peak then p else |group|;
    assert g[q].peak == r.peak && g[q].peakFreq == r.peakFreq;
  }

  /** Group `i` of the bursts cut at `cuts`. */
  function Group(bs: seq<Burst>, cuts: seq<nat>, i: nat): seq<Burst>
    requires i + 1 < |cuts| && cuts[i] <= cuts[i + 1] <= |bs|
  {
    bs[cuts[i]..cuts[i + 1]]
  }

  /** What of `bs` was joined from `from` up to `k` is close to the next burst. */
  ghost predicate Joins(bs: seq<Burst>, from: nat, k: nat, gap: real, tol: real)
    requires from <= k < |bs|
  {
    exists h :: IsHull(h, bs[from..k]) && Close(h, bs[k], gap, tol)
  }

  /** Each burst of a stretch, but its first, was close to the hull of those before it. */
  ghost predicate StretchOk(bs: seq<Burst>, from: nat, to: nat, gap: real, tol: real)
    requires to <= |bs|
  {
    forall k :: from < k < to ==> Joins(bs, from, k, gap, tol)
  }

  /** `merged` are the hulls of the stretches between the cuts; within a stretch each burst is
      close to the hull of those before it, and the stretch ended before a burst that is not. */
  ghost predicate AreHulls(merged: seq<Burst>, bs: seq<Burst>, cuts: seq<nat>, gap: real, tol: real) {
    && CutsOk(cuts, |bs|) && cuts[|cuts| - 1] == |bs| && |merged| == |cuts| - 1
    && (forall i :: 0 <= i < |merged| ==> IsHull(merged[i], Group(bs, cuts, i)))
    && (forall i :: 0 <= i < |merged| ==> StretchOk(bs, cuts[i], cuts[i + 1], gap, tol))
    && (forall i :: 0 <= i < |merged| - 1 ==> !Close(merged[i], bs[cuts[i + 1]], gap, tol))
  }

  ghost predicate CutsOk(cuts: seq<nat>, n: nat) {
    && cuts != [] && cuts[0] == 0
    && (forall i, j :: 0 <= i < j < |cuts| ==> cuts[i] < cuts[j])
    && (forall i :: 0 <= i < |cuts| ==> cuts[i] <= n)
  }

  lemma {:induction false} FewAreHulls(bs: seq<Burst>, gap: real, tol: real)
    requires |bs| < 2
    ensures exists cuts :: AreHulls(bs, bs, cuts, gap, tol)
  {
    hide IsHull, Close, Joins;
    var cuts: seq<nat> := if bs == [] then [0] else [0, 1];
    if bs != [] {
      HullOfOne(bs[0]);
      assert Group(bs, cuts, 0) == [bs[0]];
    }
    assert AreHulls(bs, bs, cuts, gap, tol);
  }

  /**
   The sweep: the bursts are cut into consecutive stretches, and each merged burst is the hull
   of one. A burst is joined exactly when it is close to what was joined so far, so the cuts and
   the merged bursts are determined (`MergeIsUnique`).
   */
  method MergeBursts(bs: seq<Burst>, gap: real, tol: real) returns (merged: seq<Burst>)
    requires forall i, j :: 0 <= i < j < |bs| ==> bs[i].start <= bs[j].start
    ensures exists cuts :: AreHulls(merged, bs, cuts, gap, tol)
  {
    hide IsHull, Close, AreHulls, Joins;
    ghost var cuts: seq<nat>;
    if |bs| < 2 {
      FewAreHulls(bs, gap, tol);
      return bs;
    }
    merged := [];
    cuts := [0];
    var current := bs[0];
    HullOfOne(current);
    assert bs[0..1] == [bs[0]];
    for k := 1 to |bs|
      invariant CutsOk(cuts, |bs|) && |merged| == |cuts| - 1 && cuts[|cuts| - 1] < k
      invariant forall i :: 0 <= i < |merged| ==> IsHull(merged[i], Group(bs, cuts, i))
      invariant forall i :: 0 <= i < |merged| ==> !Close(merged[i], bs[cuts[i + 1]], gap, tol)
      invariant forall i :: 0 <= i < |merged| ==> StretchOk(bs, cuts[i], cuts[i + 1], gap, tol)
      invariant StretchOk(bs, cuts[|cuts| - 1], k, gap, tol)
      invariant IsHull(current, bs[cuts[|cuts| - 1]..k])
      invariant current.start <= bs[k - 1].start
    {
      var next := bs[k];
      ghost var from := cuts[|cuts| - 1];
      if Close(current, next, gap, tol) {
        JoinedTo(bs, from, k, current, gap, tol);
        HullGrows(current, bs[from..k], next);
        assert bs[from..k + 1] == bs[from..k] + [next];
        current := Joined(current, next);
      } else {
        merged := merged + [current];
        cuts := cuts + [k];
        current := next;
        HullOfOne(next);
        assert bs[k..k + 1] == [next];
      }
    }
    AreHullsAtEnd(merged, current, bs, cuts, gap, tol);
    merged := merged + [current];
  }

  /** The last merged burst goes to the end. */
  lemma {:induction false} AreHullsAtEnd(merged: seq<Burst>, last: Burst, bs: seq<Burst>, cuts: seq<nat>,
                                         gap: real, tol: real)
    requires CutsOk(cuts, |bs|) && |merged| == |cuts| - 1 && cuts[|cuts| - 1] < |bs|
    requires forall i :: 0 <= i < |merged| ==> IsHull(merged[i], Group(bs, cuts, i))
    requires forall i :: 0 <= i < |merged| ==> !Close(merged[i], bs[cuts[i + 1]], gap, tol)
    requires forall i :: 0 <= i < |merged| ==> StretchOk(bs, cuts[i], cuts[i + 1], gap, tol)
    requires StretchOk(bs, cuts[|cuts| - 1], |bs|, gap, tol)
    requires IsHull(last, bs[cuts[|cuts| - 1]..|bs|])
    ensures AreHulls(merged + [last], bs, cuts + [|bs|], gap, tol)
  {
    hide IsHull, Close, StretchOk;
    var m, c := merged + [last], cuts + [|bs|];
    forall i | 0 <= i < |m|
      ensures IsHull(m[i], Group(bs, c, i))
    {
      if i < |merged| {
        assert Group(bs, c, i) == Group(bs, cuts, i);
      }
    }
  }

  lemma {:induction false} JoinedTo(bs: seq<Burst>, from: nat, k: nat, hull: Burst, gap: real, tol: real)
    requires from <= k < |bs| && IsHull(hull, bs[from..k]) && Close(hull, bs[k], gap, tol)
    ensures Joins(bs, from, k, gap, tol)
  {
  }

  // ---------- there is one result ----------

  /** A burst is determined by its edges. */
  lemma {:induction false} SameEdges(a: Burst, b: Burst)
    requires a.Lo() == b.Lo() && a.Hi() == b.Hi()
    ensures a.center == b.center && a.bandwidth == b.bandwidth
  {
    assert a.Hi() - a.Lo() == a.bandwidth && a.Hi() + a.Lo() == 2.0 * a.center;
    assert b.Hi() - b.Lo() == b.bandwidth && b.Hi() + b.Lo() == 2.0 * b.center;
  }

  /** Bursts have one hull. */
  lemma {:induction false} HullIsUnique(a: Burst, b: Burst, group: seq<Burst>)
    requires IsHull(a, group) && IsHull(b, group)
    ensures a == b
  {
    hide Burst.Lo, Burst.Hi;
    SamePeak(a, b, group);
    SameEdges(a, b);
  }

  lemma {:induction false} SamePeak(a: Burst, b: Burst, group: seq<Burst>)
    requires IsHull(a, group) && IsHull(b, group)
    ensures a.start == b.start && a.stop == b.stop && a.Lo() == b.Lo() && a.Hi() == b.Hi()
    ensures a.peak == b.peak && a.peakFreq == b.peakFreq
  {
    hide Burst.Lo, Burst.Hi;
    assert a.peak == b.peak;
    var i :| 0 <= i < |group| && group[i].peak == a.peak && group[i].peakFreq == a.peakFreq
             && (forall j :: 0 <= j < i ==> group[j].peak < a.peak);
    var k :| 0 <= k < |group| && group[k].peak == b.peak && group[k].peakFreq == b.peakFreq
             && (forall j :: 0 <= j < k ==> group[j].peak < b.peak);
    assert i == k;
  }

  /** A burst inside a stretch is close to any hull of those before it. */
  lemma {:induction false} CloseInside(bs: seq<Burst>, from: nat, at: nat, to: nat, hull: Burst, gap: real, tol: real)
    requires from < at < to <= |bs|
    requires StretchOk(bs, from, to, gap, tol) && IsHull(hull, bs[from..at])
    ensures Close(hull, bs[at], gap, tol)
  {
    hide IsHull, Close;
    assert Joins(bs, from, at, gap, tol);
    var h :| IsHull(h, bs[from..at]) && Close(h, bs[at], gap, tol);
    HullIsUnique(h, hull, bs[from..at]);
  }

  /** The next cut after a common one is common too. */
  lemma {:induction false} NextCut(m: seq<Burst>, c: seq<nat>, m': seq<Burst>, c': seq<nat>, bs: seq<Burst>,
                                   gap: real, tol: real, i: nat)
    requires AreHulls(m, bs, c, gap, tol) && AreHulls(m', bs, c', gap, tol)
    requires i + 1 < |c| && i < |c'| && c[i] == c'[i]
    ensures i + 1 < |c'| && c'[i + 1] <= c[i + 1]
  {
    hide IsHull, Close, StretchOk;
    assert c[i] < c[i + 1] <= |bs|;
    assert i + 1 < |c'|;
    if c[i + 1] < c'[i + 1] {
      assert c'[i + 1] <= |bs| && i < |m| - 1;
      assert Group(bs, c, i) == bs[c'[i]..c[i + 1]];
      CloseInside(bs, c'[i], c[i + 1], c'[i + 1], m[i], gap, tol);
    }
  }

  lemma {:induction false} SameCuts(m: seq<Burst>, c: seq<nat>, m': seq<Burst>, c': seq<nat>, bs: seq<Burst>,
                                    gap: real, tol: real, i: nat)
    requires AreHulls(m, bs, c, gap, tol) && AreHulls(m', bs, c', gap, tol) && i < |c|
    ensures i < |c'| && c[i] == c'[i]
    decreases i
  {
    hide IsHull, Close, StretchOk;
    if 0 < i {
      SameCuts(m, c, m', c', bs, gap, tol, i - 1);
      NextCut(m, c, m', c', bs, gap, tol, i - 1);
      NextCut(m', c', m, c, bs, gap, tol, i - 1);
    }
  }

  /** There is one way to cut, and so one result of merging. */
  lemma {:induction false} MergeIsUnique(m: seq<Burst>, c: seq<nat>, m': seq<Burst>, c': seq<nat>, bs: seq<Burst>,
                                         gap: real, tol: real)
    requires AreHulls(m, bs, c, gap, tol) && AreHulls(m', bs, c', gap, tol)
    ensures c == c' && m == m'
  {
    hide IsHull, Close, StretchOk;
    SameCuts(m, c, m', c', bs, gap, tol, |c| - 1);
    SameCuts(m', c', m, c, bs, gap, tol, |c'| - 1);
    forall i: nat | i < |c|
      ensures c[i] == c'[i]
    {
      SameCuts(m, c, m', c', bs, gap, tol, i);
    }
    forall i | 0 <= i < |m|
      ensures m[i] == m'[i]
    {
      assert Group(bs, c, i) == Group(bs, c', i);
      HullIsUnique(m[i], m'[i], Group(bs, c, i));
    }
  }
}
