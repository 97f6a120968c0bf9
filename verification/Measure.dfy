/**
 Measuring all burst regions at once (`processing/burst.py`, `_extract_fingerprints`): a
 stable sort of the cells by label and reductions over its segments. The result is proved
 against the plain definition, region by region, for any labelling of the grid.
 */
module Measure {
  import opened Arith

  // ---------- array operations ----------

  /** The indices of the true elements, in order. */
  function Where(b: seq<bool>): (r: seq<nat>)
    ensures forall i :: 0 <= i < |r| ==> r[i] < |b| && b[r[i]]
    ensures forall i, j :: 0 <= i < j < |r| ==> r[i] < r[j]
    ensures forall j :: 0 <= j < |b| && b[j] ==> j in r
  {
    if b == [] then []
    else
      var n := |b| - 1;
      var r := Where(b[..n]);
      if b[n] then r + [n] else r
  }

  ghost predicate Increasing(s: seq<int>) {
    forall i, j :: 0 <= i < j < |s| ==> s[i] < s[j]
  }

  ghost predicate NonDecreasing(s: seq<int>) {
    forall i, j :: 0 <= i < j < |s| ==> s[i] <= s[j]
  }

  /** Where a run of equal keys begins. */
  function Changes(keys: seq<int>): (r: seq<bool>)
    ensures |r| == |keys|
  {
    seq(|keys|, i requires 0 <= i < |keys| => i == 0 || keys[i] != keys[i - 1])
  }

  function Firsts(keys: seq<int>): seq<nat> {
    Where(Changes(keys))
  }

  /** The end of the `k`-th segment of a sequence of length `n`. */
  function SegEnd(starts: seq<nat>, k: nat, n: nat): nat
    requires k < |starts|
  {
    if k + 1 < |starts| then starts[k + 1] else n
  }

  function MinOf(s: seq<int>): (m: int)
    requires s != []
    ensures m in s && forall i :: 0 <= i < |s| ==> m <= s[i]
  {
    if |s| == 1 then s[0]
    else
      var m := MinOf(s[..|s| - 1]);
      if s[|s| - 1] < m then s[|s| - 1] else m
  }

  function MaxOf(s: seq<int>): (m: int)
    requires s != []
    ensures m in s && forall i :: 0 <= i < |s| ==> s[i] <= m
  {
    if |s| == 1 then s[0]
    else
      var m := MaxOf(s[..|s| - 1]);
      if m < s[|s| - 1] then s[|s| - 1] else m
  }

  function Strongest(s: seq<real>): (m: real)
    requires s != []
    ensures m in s && forall i :: 0 <= i < |s| ==> s[i] <= m
  {
    if |s| == 1 then s[0]
    else
      var m := Strongest(s[..|s| - 1]);
      if m < s[|s| - 1] then s[|s| - 1] else m
  }

  // ---------- the stable sort ----------

  /** Cell `c` before cell `d`: by label, then by position. */
  ghost predicate Before(labels: seq<nat>, c: nat, d: nat)
    requires c < |labels| && d < |labels|
  {
    labels[c] < labels[d] || (labels[c] == labels[d] && c < d)
  }

  ghost predicate CellsOk(cells: seq<nat>, n: nat) {
    forall i :: 0 <= i < |cells| ==> cells[i] < n
  }

  ghost predicate SortedCells(cells: seq<nat>, labels: seq<nat>)
    requires CellsOk(cells, |labels|)
  {
    forall i, j :: 0 <= i < j < |cells| ==> Before(labels, cells[i], cells[j])
  }

  /** `c` behind every cell whose label is not larger. */
  function PutCell(cells: seq<nat>, c: nat, labels: seq<nat>): (r: seq<nat>)
    requires CellsOk(cells, |labels|) && c < |labels|
    ensures CellsOk(r, |labels|)
  {
    if cells == [] then [c]
    else if labels[cells[|cells| - 1]] <= labels[c] then cells + [c]
    else PutCell(cells[..|cells| - 1], c, labels) + [cells[|cells| - 1]]
  }

  function StableSort(cells: seq<nat>, labels: seq<nat>): (r: seq<nat>)
    requires CellsOk(cells, |labels|)
    ensures CellsOk(r, |labels|)
  {
    if cells == [] then []
    else PutCell(StableSort(cells[..|cells| - 1], labels), cells[|cells| - 1], labels)
  }

  lemma {:induction false} PutHolds(cells: seq<nat>, c: nat, labels: seq<nat>)
    requires CellsOk(cells, |labels|) && c < |labels|
    ensures forall d :: d in PutCell(cells, c, labels) <==> d in cells || d == c
  {
    if cells == [] {
    } else if labels[cells[|cells| - 1]] <= labels[c] {
    } else {
      PutHolds(cells[..|cells| - 1], c, labels);
      assert cells == cells[..|cells| - 1] + [cells[|cells| - 1]];
    }
  }

  lemma {:induction false} PutKeepsSorted(cells: seq<nat>, c: nat, labels: seq<nat>)
    requires CellsOk(cells, |labels|) && c < |labels| && SortedCells(cells, labels)
    requires forall i :: 0 <= i < |cells| ==> cells[i] < c
    ensures SortedCells(PutCell(cells, c, labels), labels)
  {
    if cells == [] {
    } else if labels[cells[|cells| - 1]] <= labels[c] {
    } else {
      var n := |cells| - 1;
      PutKeepsSorted(cells[..n], c, labels);
      var front := PutCell(cells[..n], c, labels);
      forall i | 0 <= i < |front|
        ensures Before(labels, front[i], cells[n])
      {
        PutHolds(cells[..n], c, labels);
        assert front[i] in front;
        assert front[i] in cells[..n] || front[i] == c;
      }
      SortedSnoc(front, cells[n], labels);
    }
  }

  lemma {:induction false} SortedSnoc(cells: seq<nat>, c: nat, labels: seq<nat>)
    requires CellsOk(cells, |labels|) && c < |labels| && SortedCells(cells, labels)
    requires forall i :: 0 <= i < |cells| ==> Before(labels, cells[i], c)
    ensures SortedCells(cells + [c], labels)
  {
  }

  lemma {:induction false} SortIsStable(cells: seq<nat>, labels: seq<nat>)
    requires CellsOk(cells, |labels|) && Increasing(cells)
    ensures SortedCells(StableSort(cells, labels), labels)
    ensures forall d :: d in StableSort(cells, labels) <==> d in cells
  {
    if cells == [] {
    } else {
      var n := |cells| - 1;
      SortIsStable(cells[..n], labels);
      assert cells == cells[..n] + [cells[n]];
      var s := StableSort(cells[..n], labels);
      assert forall i :: 0 <= i < |s| ==> s[i] in s && s[i] in cells[..n];
      PutKeepsSorted(s, cells[n], labels);
      PutHolds(s, cells[n], labels);
    }
  }

  // ---------- segments ----------

  lemma {:induction false} NoChangeInside(keys: seq<int>, a: nat, i: nat)
    requires a <= i < |keys|
    requires forall j :: a < j <= i ==> keys[j] == keys[j - 1]
    ensures keys[i] == keys[a]
  {
    if a < i {
      NoChangeInside(keys, a, i - 1);
    }
  }

  /** A segment is exactly one run of equal keys. */
  lemma {:induction false} SegmentIsRun(keys: seq<int>, k: nat)
    requires NonDecreasing(keys) && k < |Firsts(keys)|
    ensures Firsts(keys)[k] < SegEnd(Firsts(keys), k, |keys|) <= |keys|
    ensures forall i :: 0 <= i < |keys| ==>
      (keys[i] == keys[Firsts(keys)[k]] <==> Firsts(keys)[k] <= i < SegEnd(Firsts(keys), k, |keys|))
  {
    var f := Firsts(keys);
    var a, b := f[k], SegEnd(f, k, |keys|);
    assert Changes(keys)[a];
    forall i | a <= i < b
      ensures keys[i] == keys[a]
    {
      forall j | a < j <= i
        ensures keys[j] == keys[j - 1]
      {
        if Changes(keys)[j] {
          BetweenNone(f, k, j, |keys|);
        }
      }
      NoChangeInside(keys, a, i);
    }
    if k + 1 < |f| {
      assert Changes(keys)[b];
    }
  }

  /** No element of an increasing sequence lies between two neighbours. */
  lemma {:induction false} BetweenNone(f: seq<nat>, k: nat, j: nat, n: nat)
    requires Increasing(f) && k < |f| && f[k] < j < SegEnd(f, k, n)
    ensures j !in f
  {
    forall i | 0 <= i < |f|
      ensures f[i] != j
    {
      assert i <= k || k + 1 <= i;
    }
  }

  /** Every key heads one segment. */
  lemma {:induction false} SegmentOf(keys: seq<int>, i: nat) returns (k: nat)
    requires NonDecreasing(keys) && i < |keys|
    ensures k < |Firsts(keys)| && keys[Firsts(keys)[k]] == keys[i] && Firsts(keys)[k] <= i
  {
    if Changes(keys)[i] {
      assert i in Firsts(keys);
      k :| 0 <= k < |Firsts(keys)| && Firsts(keys)[k] == i;
    } else {
      k := SegmentOf(keys, i - 1);
    }
  }

  /** The keys that head the segments increase strictly. */
  lemma {:induction false} HeadsIncrease(keys: seq<int>, k: nat, l: nat)
    requires NonDecreasing(keys) && k < l < |Firsts(keys)|
    ensures keys[Firsts(keys)[k]] < keys[Firsts(keys)[l]]
  {
    SegmentIsRun(keys, k);
  }

  /** An increasing sequence that holds exactly `0 .. m` holds them in place. */
  lemma {:induction false} HoldsInPlace(v: seq<int>, m: nat, k: nat)
    requires Increasing(v) && (forall i :: 0 <= i < |v| ==> 0 <= v[i] < m)
    requires forall x :: 0 <= x < m ==> x in v
    requires k < m
    ensures k < |v| && v[k] == k
  {
    assert k in v;
    var i :| 0 <= i < |v| && v[i] == k;
    AtLeastIndex(v, i);
    if i < k {
      HoldsInPlace(v, m, i);
    }
  }

  lemma {:induction false} AtLeastIndex(v: seq<int>, i: nat)
    requires Increasing(v) && i < |v| && 0 <= v[0]
    ensures i <= v[i]
  {
    if i > 0 {
      AtLeastIndex(v, i - 1);
    }
  }
  // ---------- the labels worth measuring ----------

  function PutUnique(u: seq<nat>, x: nat): seq<nat> {
    if u == [] then [x]
    else if u[|u| - 1] == x then u
    else if u[|u| - 1] < x then u + [x]
    else PutUnique(u[..|u| - 1], x) + [u[|u| - 1]]
  }

  /** The distinct values, sorted. */
  function Unique(xs: seq<nat>): seq<nat> {
    if xs == [] then [] else PutUnique(Unique(xs[..|xs| - 1]), xs[|xs| - 1])
  }

  lemma {:induction false} PutUniqueHolds(u: seq<nat>, x: nat)
    ensures forall y :: y in PutUnique(u, x) <==> y in u || y == x
  {
    if u == [] {
    } else {
      PutUniqueHolds(u[..|u| - 1], x);
      assert u == u[..|u| - 1] + [u[|u| - 1]];
    }
  }

  lemma {:induction false} PutUniqueIncreases(u: seq<nat>, x: nat)
    requires Increasing(u)
    ensures Increasing(PutUnique(u, x))
  {
    if u == [] {
    } else if x < u[|u| - 1] {
      var n := |u| - 1;
      PutUniqueIncreases(u[..n], x);
      PutUniqueHolds(u[..n], x);
      var front := PutUnique(u[..n], x);
      forall i | 0 <= i < |front|
        ensures front[i] < u[n]
      {
        assert front[i] in front;
      }
    }
  }

  lemma {:induction false} UniqueExact(xs: seq<nat>)
    ensures Increasing(Unique(xs)) && forall y :: y in Unique(xs) <==> y in xs
  {
    if xs == [] {
    } else {
      var n := |xs| - 1;
      UniqueExact(xs[..n]);
      PutUniqueIncreases(Unique(xs[..n]), xs[n]);
      PutUniqueHolds(Unique(xs[..n]), xs[n]);
      assert xs == xs[..n] + [xs[n]];
    }
  }

  function Positive(u: seq<nat>): seq<nat> {
    if u == [] then []
    else Positive(u[..|u| - 1]) + (if 0 < u[|u| - 1] then [u[|u| - 1]] else [])
  }

  lemma {:induction false} PositiveExact(u: seq<nat>)
    requires Increasing(u)
    ensures Increasing(Positive(u)) && forall y :: y in Positive(u) <==> y in u && 0 < y
  {
    if u == [] {
    } else {
      var n := |u| - 1;
      PositiveExact(u[..n]);
      assert u == u[..n] + [u[n]];
      forall i | 0 <= i < |Positive(u[..n])|
        ensures Positive(u[..n])[i] < u[n]
      {
        assert Positive(u[..n])[i] in Positive(u[..n]);
        assert Positive(u[..n])[i] in u[..n];
      }
    }
  }

  /** The elements of `s` at the indices `at`. */
  function Take<T>(s: seq<T>, at: seq<nat>): (r: seq<T>)
    requires forall i :: 0 <= i < |at| ==> at[i] < |s|
    ensures |r| == |at| && forall i :: 0 <= i < |at| ==> r[i] == s[at[i]]
  {
    seq(|at|, i requires 0 <= i < |at| => s[at[i]])
  }

  /** The labels of regions that hold a high cell. */
  function ValidLabels(labels: seq<nat>, high: seq<bool>): seq<nat>
    requires |high| == |labels|
  {
    Positive(Unique(Take(labels, Where(high))))
  }

  /** `valid` lists, in order, the labels that have a high cell. */
  lemma {:induction false} ValidExact(labels: seq<nat>, high: seq<bool>)
    requires |high| == |labels|
    ensures Increasing(ValidLabels(labels, high))
    ensures forall l: nat :: l in ValidLabels(labels, high) <==>
      0 < l && exists c :: 0 <= c < |labels| && labels[c] == l && high[c]
  {
    hide Where, Unique, Positive;
    var at := Where(high);
    var found := Take(labels, at);
    UniqueExact(found);
    PositiveExact(Unique(found));
    forall l: nat
      ensures l in found <==> exists c :: 0 <= c < |labels| && labels[c] == l && high[c]
    {
      if c :| 0 <= c < |labels| && labels[c] == l && high[c] {
        assert c in at;
        var i :| 0 <= i < |at| && at[i] == c;
        assert found[i] == l;
      }
    }
  }

  // ---------- groups ----------

  /** The segment number of every position below the `k`-th segment. */
  function Repeated(starts: seq<nat>, n: nat, k: nat): seq<nat>
    requires k <= |starts| && Increasing(starts) && forall i :: 0 <= i < |starts| ==> starts[i] < n
  {
    if k == 0 then []
    else Repeated(starts, n, k - 1) + seq(SegEnd(starts, k - 1, n) - starts[k - 1], _ => k - 1)
  }

  lemma {:induction false} RepeatedIs(starts: seq<nat>, n: nat, k: nat)
    requires k <= |starts| && Increasing(starts) && forall i :: 0 <= i < |starts| ==> starts[i] < n
    requires starts != [] ==> starts[0] == 0
    ensures |Repeated(starts, n, k)| == if k == 0 then 0 else SegEnd(starts, k - 1, n)
    ensures forall i :: 0 <= i < |Repeated(starts, n, k)| ==>
      Repeated(starts, n, k)[i] < k && starts[Repeated(starts, n, k)[i]] <= i < SegEnd(starts, Repeated(starts, n, k)[i], n)
  {
    if k == 0 {
    } else {
      RepeatedIs(starts, n, k - 1);
    }
  }

  // ---------- the first peaks ----------

  /** `first` gives, for each segment, the first position that has the segment's peak. */
  ghost predicate FirstPeaks(first: seq<nat>, powers: seq<real>, peak: seq<real>, starts: seq<nat>) {
    && |first| == |starts| == |peak|
    && forall k :: 0 <= k < |starts| ==> FirstPeakAt(first[k], powers, peak, starts, k)
  }

  ghost predicate FirstPeakAt(e: nat, powers: seq<real>, peak: seq<real>, starts: seq<nat>, k: nat)
    requires |starts| == |peak| && k < |starts|
  {
    && starts[k] <= e < SegEnd(starts, k, |powers|) <= |powers|
    && powers[e] == peak[k]
    && forall i :: starts[k] <= i < e ==> powers[i] != peak[k]
  }

  function AtPeak(powers: seq<real>, peak: seq<real>, group: seq<nat>): seq<nat>
    requires |group| == |powers| && forall i :: 0 <= i < |group| ==> group[i] < |peak|
  {
    Where(seq(|powers|, i requires 0 <= i < |powers| => powers[i] == peak[group[i]]))
  }

  lemma {:induction false} AtPeakIs(powers: seq<real>, peak: seq<real>, group: seq<nat>)
    requires |group| == |powers| && forall i :: 0 <= i < |group| ==> group[i] < |peak|
    ensures Increasing(AtPeak(powers, peak, group))
    ensures forall i :: i in AtPeak(powers, peak, group) <==> 0 <= i < |powers| && powers[i] == peak[group[i]]
  {
    hide Where;
    var b := seq(|powers|, i requires 0 <= i < |powers| => powers[i] == peak[group[i]]);
    forall i | 0 <= i < |powers| && powers[i] == peak[group[i]]
      ensures i in Where(b)
    {
      assert b[i];
    }
    forall i | i in Where(b)
      ensures 0 <= i < |powers| && powers[i] == peak[group[i]]
    {
      assert b[i];
    }
  }
  ghost predicate StartsOk(starts: seq<nat>, n: nat) {
    && Increasing(starts) && (forall i :: 0 <= i < |starts| ==> starts[i] < n)
    && (starts != [] ==> starts[0] == 0)
  }

  /** The group of a position is its segment. */
  ghost predicate GroupOk(group: seq<nat>, starts: seq<nat>, n: nat) {
    && |group| == n
    && forall i :: 0 <= i < n ==>
         group[i] < |starts| && starts[group[i]] <= i < SegEnd(starts, group[i], n)
  }

  lemma {:induction false} SegmentBefore(starts: seq<nat>, n: nat, k: nat, l: nat)
    requires StartsOk(starts, n) && k < l < |starts|
    ensures SegEnd(starts, k, n) <= starts[l]
  {
  }

  lemma {:induction false} SegmentsApart(starts: seq<nat>, n: nat, k: nat, l: nat, i: nat)
    requires StartsOk(starts, n) && k < |starts| && l < |starts|
    requires starts[k] <= i < SegEnd(starts, k, n) && starts[l] <= i < SegEnd(starts, l, n)
    ensures k == l
  {
    if k < l {
      SegmentBefore(starts, n, k, l);
    } else if l < k {
      SegmentBefore(starts, n, l, k);
    }
  }

  lemma {:induction false} GroupGrows(group: seq<nat>, starts: seq<nat>, n: nat, i: nat, j: nat)
    requires StartsOk(starts, n) && GroupOk(group, starts, n) && i <= j < n
    ensures group[i] <= group[j]
  {
    if group[j] < group[i] {
      SegmentBefore(starts, n, group[j], group[i]);
    }
  }

  /** A segmented sequence of powers: each segment's peak, and one place where it is. */
  ghost predicate Segmented(powers: seq<real>, peak: seq<real>, starts: seq<nat>, group: seq<nat>, at: seq<nat>,
                            w: seq<nat>) {
    && StartsOk(starts, |powers|) && GroupOk(group, starts, |powers|) && |peak| == |starts| == |w|
    && (forall k :: 0 <= k < |w| ==> starts[k] <= w[k] < SegEnd(starts, k, |powers|) && w[k] < |powers| && powers[w[k]] == peak[k])
    && Increasing(at)
    && (forall i :: 0 <= i < |powers| && powers[i] == peak[group[i]] ==> i in at)
    && (forall i :: 0 <= i < |at| ==> at[i] < |powers| && powers[at[i]] == peak[group[at[i]]])
  }

  /** The groups at the places of the peaks. */
  function GroupsAt(group: seq<nat>, at: seq<nat>): (r: seq<nat>)
    requires forall i :: 0 <= i < |at| ==> at[i] < |group|
    ensures |r| == |at| && forall i :: 0 <= i < |at| ==> r[i] == group[at[i]]
  {
    Take(group, at)
  }

  lemma {:induction false} GroupsGrow(powers: seq<real>, peak: seq<real>, starts: seq<nat>, group: seq<nat>,
                                      at: seq<nat>, w: seq<nat>)
    requires Segmented(powers, peak, starts, group, at, w)
    ensures NonDecreasing(GroupsAt(group, at))
  {
    var gp := GroupsAt(group, at);
    forall i, j | 0 <= i < j < |gp|
      ensures gp[i] <= gp[j]
    {
      GroupGrows(group, starts, |powers|, at[i], at[j]);
    }
  }

  /** Every group heads a run of peaks. */
  lemma {:induction false} GroupHeads(powers: seq<real>, peak: seq<real>, starts: seq<nat>, group: seq<nat>,
                                      at: seq<nat>, w: seq<nat>,
                                      x: nat) returns (k: nat)
    requires Segmented(powers, peak, starts, group, at, w) && x < |starts|
    requires NonDecreasing(GroupsAt(group, at))
    ensures k < |Firsts(GroupsAt(group, at))| && Firsts(GroupsAt(group, at))[k] < |at|
    ensures GroupsAt(group, at)[Firsts(GroupsAt(group, at))[k]] == x
  {
    hide Firsts, NonDecreasing;
    SegmentsApart(starts, |powers|, x, group[w[x]], w[x]);
    assert w[x] in at;
    var p :| 0 <= p < |at| && at[p] == w[x];
    k := SegmentOf(GroupsAt(group, at), p);
    FirstsBounded(GroupsAt(group, at));
  }

  lemma {:induction false} FirstsBounded(keys: seq<int>)
    ensures forall i :: 0 <= i < |Firsts(keys)| ==> Firsts(keys)[i] < |keys|
    ensures Increasing(Firsts(keys))
  {
  }

  /** The runs of peaks are headed by the groups, in order. */
  lemma {:induction false} HeadsAreGroups(powers: seq<real>, peak: seq<real>, starts: seq<nat>, group: seq<nat>,
                                          at: seq<nat>, w: seq<nat>)
    requires Segmented(powers, peak, starts, group, at, w)
    ensures var f := Firsts(GroupsAt(group, at));
      |f| == |starts| && forall k :: 0 <= k < |f| ==> f[k] < |at| && group[at[f[k]]] == k
  {
    hide Firsts;
    GroupsGrow(powers, peak, starts, group, at, w);
    var gp, m := GroupsAt(group, at), |starts|;
    FirstsBounded(gp);
    var heads: seq<int> := Take(gp, Firsts(gp));
    forall i, j | 0 <= i < j < |heads|
      ensures heads[i] < heads[j]
    {
      HeadsIncrease(gp, i, j);
    }
    forall x | 0 <= x < m
      ensures x in heads
    {
      var k := GroupHeads(powers, peak, starts, group, at, w, x);
      assert heads[k] == x;
    }
    HoldsAll(heads, m);
  }

  lemma {:induction false} HoldsAll(v: seq<int>, m: nat)
    requires Increasing(v) && (forall i :: 0 <= i < |v| ==> 0 <= v[i] < m)
    requires forall x :: 0 <= x < m ==> x in v
    ensures |v| == m && forall k :: 0 <= k < m ==> v[k] == k
  {
    forall k | 0 <= k < m
      ensures k < |v| && v[k] == k
    {
      HoldsInPlace(v, m, k);
    }
    if 0 < m {
      HoldsInPlace(v, m, m - 1);
    }
    if v != [] {
      assert 0 <= v[0] && v[|v| - 1] < m;
      AtLeastIndex(v, |v| - 1);
    }
  }

  /** A place where a segment has its peak is listed, in the segment's group. */
  lemma {:induction false} PlaceOfPeak(powers: seq<real>, peak: seq<real>, starts: seq<nat>, group: seq<nat>,
                                       at: seq<nat>, w: seq<nat>,
                                       k: nat, i: nat) returns (p: nat)
    requires Segmented(powers, peak, starts, group, at, w) && k < |starts|
    requires starts[k] <= i < SegEnd(starts, k, |powers|) && i < |powers| && powers[i] == peak[k]
    ensures p < |at| && at[p] == i && i < |group| && group[i] == k
  {
    SegmentsApart(starts, |powers|, k, group[i], i);
    assert i in at;
    p :| 0 <= p < |at| && at[p] == i;
  }

  /** No position before a segment's first listed one has its peak. */
  lemma {:induction false} EarlierPeak(gp: seq<nat>, group: seq<nat>, at: seq<nat>, k: nat, p: nat)
    requires (forall i :: 0 <= i < |at| ==> at[i] < |group|) && gp == GroupsAt(group, at)
    requires NonDecreasing(gp) && Increasing(at) && p < |at| && group[at[p]] == k
    requires k < |Firsts(gp)| && Firsts(gp)[k] < |at| && group[at[Firsts(gp)[k]]] == k
    ensures at[Firsts(gp)[k]] <= at[p]
  {
    hide Firsts, NonDecreasing;
    RunStart(gp, k, p);
  }

  lemma {:induction false} RunStart(keys: seq<int>, k: nat, p: nat)
    requires NonDecreasing(keys) && k < |Firsts(keys)| && p < |keys| && Firsts(keys)[k] < |keys|
    requires keys[p] == keys[Firsts(keys)[k]]
    ensures Firsts(keys)[k] <= p
  {
    SegmentIsRun(keys, k);
  }

  /** Every segment's peak is found at its first place, in the order of the segments. */
  lemma {:induction false} PeaksFound(powers: seq<real>, peak: seq<real>, starts: seq<nat>, group: seq<nat>,
                                      at: seq<nat>, w: seq<nat>)
    requires Segmented(powers, peak, starts, group, at, w)
    ensures forall k :: 0 <= k < |Firsts(GroupsAt(group, at))| ==> Firsts(GroupsAt(group, at))[k] < |at|
    ensures FirstPeaks(Take(at, Firsts(GroupsAt(group, at))), powers, peak, starts)
  {
    hide Firsts;
    HeadsAreGroups(powers, peak, starts, group, at, w);
    forall k | 0 <= k < |starts|
      ensures FirstPeakAt(at[Firsts(GroupsAt(group, at))[k]], powers, peak, starts, k)
    {
      PeakFound(powers, peak, starts, group, at, w, k);
    }
  }

  lemma {:induction false} PeakFound(powers: seq<real>, peak: seq<real>, starts: seq<nat>, group: seq<nat>,
                                     at: seq<nat>, w: seq<nat>,
                                     k: nat)
    requires Segmented(powers, peak, starts, group, at, w) && k < |starts|
    requires k < |Firsts(GroupsAt(group, at))| && Firsts(GroupsAt(group, at))[k] < |at|
    requires group[at[Firsts(GroupsAt(group, at))[k]]] == k
    ensures FirstPeakAt(at[Firsts(GroupsAt(group, at))[k]], powers, peak, starts, k)
  {
    hide Firsts;
    var e := at[Firsts(GroupsAt(group, at))[k]];
    SegmentFits(starts, |powers|, k);
    GroupsGrow(powers, peak, starts, group, at, w);
    forall i | starts[k] <= i < e
      ensures powers[i] != peak[k]
    {
      if powers[i] == peak[k] {
        var p := PlaceOfPeak(powers, peak, starts, group, at, w, k, i);
        EarlierPeak(GroupsAt(group, at), group, at, k, p);
      }
    }
  }

  lemma {:induction false} SegmentFits(starts: seq<nat>, n: nat, k: nat)
    requires StartsOk(starts, n) && k < |starts|
    ensures starts[k] < SegEnd(starts, k, n) <= n
  {
  }
  // ---------- the measurement ----------

  /** Bounding rows and columns, the peak, and the column of the peak. */
  datatype Record = Record(rowMin: int, rowMax: int, colMin: int, colMax: int, peak: real, peakCol: int)

  /** Row and column of a cell, in row-major order. */
  function RowOf(c: nat, cols: nat): int
    requires 0 < cols
  {
    c / cols
  }

  function ColOf(c: nat, cols: nat): int
    requires 0 < cols
  {
    c % cols
  }

  /** `c` is a cell of the region with label `l`. */
  predicate In(c: int, l: nat, labels: seq<nat>) {
    0 <= c < |labels| && labels[c] == l
  }

  /** The plain definition: `r` measures the region of all cells with label `l`. Its peak
      column is that of the region's first strongest cell in row-major order. */
  ghost predicate Describes(r: Record, l: nat, labels: seq<nat>, power: seq<real>, cols: nat)
    requires 0 < cols && |power| == |labels|
  {
    Encloses(r, l, labels, cols) && Touches(r, l, labels, cols) && PeaksAt(r, l, labels, power, cols)
  }

  ghost predicate Encloses(r: Record, l: nat, labels: seq<nat>, cols: nat)
    requires 0 < cols
  {
    forall c :: In(c, l, labels) ==> r.rowMin <= RowOf(c, cols) <= r.rowMax && r.colMin <= ColOf(c, cols) <= r.colMax
  }

  ghost predicate Touches(r: Record, l: nat, labels: seq<nat>, cols: nat)
    requires 0 < cols
  {
    && (exists c :: In(c, l, labels) && RowOf(c, cols) == r.rowMin)
    && (exists c :: In(c, l, labels) && RowOf(c, cols) == r.rowMax)
    && (exists c :: In(c, l, labels) && ColOf(c, cols) == r.colMin)
    && (exists c :: In(c, l, labels) && ColOf(c, cols) == r.colMax)
  }

  ghost predicate PeaksAt(r: Record, l: nat, labels: seq<nat>, power: seq<real>, cols: nat)
    requires 0 < cols && |power| == |labels|
  {
    && (forall c :: In(c, l, labels) ==> power[c] <= r.peak)
    && exists c :: In(c, l, labels) && power[c] == r.peak && ColOf(c, cols) == r.peakCol
                   && forall d :: In(d, l, labels) && d < c ==> power[d] < r.peak
  }

  // ---------- the plain definition, over rows and columns ----------

  /** The cell in this row and column of a grid with `cols` columns has label `l`. */
  ghost predicate At(l: nat, labels: seq<nat>, cols: nat, row: nat, col: nat) {
    col < cols && row * cols + col < |labels| && labels[row * cols + col] == l
  }

  /** The record `r` measures the region with label `l`: its smallest box of rows and columns,
      its largest power, and the column of the first cell of that power, row by row. */
  ghost predicate Measures(r: Record, l: nat, labels: seq<nat>, power: seq<real>, cols: nat)
    requires |power| == |labels|
  {
    && (forall row: nat, col: nat :: At(l, labels, cols, row, col) ==>
          r.rowMin <= row <= r.rowMax && r.colMin <= col <= r.colMax && power[row * cols + col] <= r.peak)
    && (exists row: nat, col: nat :: At(l, labels, cols, row, col) && row == r.rowMin)
    && (exists row: nat, col: nat :: At(l, labels, cols, row, col) && row == r.rowMax)
    && (exists row: nat, col: nat :: At(l, labels, cols, row, col) && col == r.colMin)
    && (exists row: nat, col: nat :: At(l, labels, cols, row, col) && col == r.colMax)
    && (exists row: nat, col: nat :: At(l, labels, cols, row, col) && IsFirstPeak(r, l, labels, power, cols, row, col))
  }

  ghost predicate IsFirstPeak(r: Record, l: nat, labels: seq<nat>, power: seq<real>, cols: nat, row: nat, col: nat)
    requires |power| == |labels| && At(l, labels, cols, row, col)
  {
    && power[row * cols + col] == r.peak && col == r.peakCol
    && forall row': nat, col': nat :: At(l, labels, cols, row', col') && (row' < row || (row' == row && col' < col)) ==>
         power[row' * cols + col'] < r.peak
  }

  lemma {:induction false} CellOf(row: nat, col: nat, cols: nat)
    requires col < cols
    ensures RowOf(row * cols + col, cols) == row && ColOf(row * cols + col, cols) == col
  {
    assert row * cols == cols * row;
    DivUnique(row * cols + col, cols, row, col);
  }

  /** Every cell has one row and one column. */
  lemma {:induction false} RowAndColumn(c: nat, cols: nat)
    requires 0 < cols
    ensures 0 <= RowOf(c, cols) && 0 <= ColOf(c, cols) < cols && RowOf(c, cols) * cols + ColOf(c, cols) == c
  {
    assert c == cols * (c / cols) + c % cols;
    assert (c / cols) * cols == cols * (c / cols);
  }

  lemma {:induction false} CellAt(c: int, l: nat, labels: seq<nat>, cols: nat)
    requires 0 < cols && In(c, l, labels)
    ensures 0 <= RowOf(c, cols) && 0 <= ColOf(c, cols) && RowOf(c, cols) * cols + ColOf(c, cols) == c
    ensures At(l, labels, cols, RowOf(c, cols), ColOf(c, cols))
  {
    hide RowOf, ColOf;
    RowAndColumn(c, cols);
  }

  /** Earlier in row-major order. */
  lemma {:induction false} EarlierCell(row: nat, col: nat, row': nat, col': nat, cols: nat)
    requires col < cols && col' < cols && (row' < row || (row' == row && col' < col))
    ensures row' * cols + col' < row * cols + col
  {
    if row' < row {
      MulMonotone(row' + 1, row, cols);
      assert (row' + 1) * cols == row' * cols + cols;
    }
  }

  /** What describes the region by cell numbers measures it by rows and columns. */
  lemma {:induction false} DescribesMeasures(r: Record, l: nat, labels: seq<nat>, power: seq<real>, cols: nat)
    requires 0 < cols && |power| == |labels| && Describes(r, l, labels, power, cols)
    ensures Measures(r, l, labels, power, cols)
  {
    hide RowOf, ColOf, Touches, IsFirstPeak;
    forall row: nat, col: nat | At(l, labels, cols, row, col)
      ensures r.rowMin <= row <= r.rowMax && r.colMin <= col <= r.colMax && power[row * cols + col] <= r.peak
    {
      CellOf(row, col, cols);
      assert In(row * cols + col, l, labels);
    }
    TouchesCells(r, l, labels, cols);
    PeakCell(r, l, labels, power, cols);
  }

  lemma {:induction false} TouchesCells(r: Record, l: nat, labels: seq<nat>, cols: nat)
    requires 0 < cols && Touches(r, l, labels, cols)
    ensures exists row: nat, col: nat :: At(l, labels, cols, row, col) && row == r.rowMin
    ensures exists row: nat, col: nat :: At(l, labels, cols, row, col) && row == r.rowMax
    ensures exists row: nat, col: nat :: At(l, labels, cols, row, col) && col == r.colMin
    ensures exists row: nat, col: nat :: At(l, labels, cols, row, col) && col == r.colMax
  {
    hide RowOf, ColOf, At;
    var top :| In(top, l, labels) && RowOf(top, cols) == r.rowMin;
    CellAt(top, l, labels, cols);
    var bottom :| In(bottom, l, labels) && RowOf(bottom, cols) == r.rowMax;
    CellAt(bottom, l, labels, cols);
    var left :| In(left, l, labels) && ColOf(left, cols) == r.colMin;
    CellAt(left, l, labels, cols);
    var right :| In(right, l, labels) && ColOf(right, cols) == r.colMax;
    CellAt(right, l, labels, cols);
  }

  lemma {:induction false} PeakCell(r: Record, l: nat, labels: seq<nat>, power: seq<real>, cols: nat)
    requires 0 < cols && |power| == |labels| && PeaksAt(r, l, labels, power, cols)
    ensures exists row: nat, col: nat :: At(l, labels, cols, row, col) && IsFirstPeak(r, l, labels, power, cols, row, col)
  {
    hide RowOf, ColOf;
    var c :| In(c, l, labels) && power[c] == r.peak && ColOf(c, cols) == r.peakCol
             && forall d :: In(d, l, labels) && d < c ==> power[d] < r.peak;
    CellAt(c, l, labels, cols);
    var row: nat, col: nat := RowOf(c, cols), ColOf(c, cols);
    forall row': nat, col': nat | At(l, labels, cols, row', col') && (row' < row || (row' == row && col' < col))
      ensures power[row' * cols + col'] < r.peak
    {
      EarlierCell(row, col, row', col', cols);
      assert In(row' * cols + col', l, labels);
    }
    assert At(l, labels, cols, row, col) && IsFirstPeak(r, l, labels, power, cols, row, col);
  }

  // ---------- the cells to measure ----------

  /** The lookup table of the labels to keep. */
  function Table(valid: seq<nat>): (r: seq<bool>)
    requires valid != []
    ensures r != []
  {
    seq(MaxOf(valid) + 1, l => l in valid)
  }

  function KeepCell(lab: nat, table: seq<bool>): bool
    requires table != []
  {
    table[if lab < |table| - 1 then lab else |table| - 1] && lab < |table|
  }

  lemma {:induction false} TableExact(valid: seq<nat>, lab: nat)
    requires valid != []
    ensures |Table(valid)| == MaxOf(valid) + 1 > 0
    ensures KeepCell(lab, Table(valid)) <==> lab in valid
  {
  }

  /** The nonzero cells whose label is kept, grouped by label. */
  function GroupedCells(labels: seq<nat>, low: seq<bool>, valid: seq<nat>): (r: seq<nat>)
    requires |low| == |labels| && valid != []
    ensures CellsOk(r, |labels|)
  {
    var cells := Where(low);
    var kept := Take(cells, Where(seq(|cells|, i requires 0 <= i < |cells| => KeepCell(labels[cells[i]], Table(valid)))));
    StableSort(kept, labels)
  }

  lemma {:induction false} GroupedExact(labels: seq<nat>, low: seq<bool>, valid: seq<nat>)
    requires |low| == |labels| && valid != []
    requires forall c :: 0 <= c < |labels| ==> (low[c] <==> 0 < labels[c])
    requires forall l :: l in valid ==> 0 < l
    ensures SortedCells(GroupedCells(labels, low, valid), labels)
    ensures forall c :: c in GroupedCells(labels, low, valid) <==> 0 <= c < |labels| && labels[c] in valid
  {
    hide Where, StableSort, KeepCell, Table;
    var cells := Where(low);
    var b := seq(|cells|, i requires 0 <= i < |cells| => KeepCell(labels[cells[i]], Table(valid)));
    var kept := Take(cells, Where(b));
    SortIsStable(kept, labels);
    forall c | 0 <= c < |labels| && labels[c] in valid
      ensures c in kept
    {
      assert c in cells;
      var i :| 0 <= i < |cells| && cells[i] == c;
      TableExact(valid, labels[c]);
      assert i in Where(b);
      var j :| 0 <= j < |Where(b)| && Where(b)[j] == i;
      assert kept[j] == c;
    }
    forall c | c in kept
      ensures 0 <= c < |labels| && labels[c] in valid
    {
      var j :| 0 <= j < |kept| && kept[j] == c;
      assert b[Where(b)[j]];
      TableExact(valid, labels[c]);
    }
  }

  // ---------- segments are regions ----------

  /** What `GroupedExact` says about the cells, in label order. */
  ghost predicate Grouped(idx: seq<nat>, labels: seq<nat>, valid: seq<nat>) {
    && CellsOk(idx, |labels|) && SortedCells(idx, labels)
    && (forall c :: 0 <= c < |labels| && labels[c] in valid ==> c in idx)
    && (forall i :: 0 <= i < |idx| ==> labels[idx[i]] in valid)
  }

  function LabelsOf(idx: seq<nat>, labels: seq<nat>): (r: seq<nat>)
    requires CellsOk(idx, |labels|)
    ensures |r| == |idx| && forall i :: 0 <= i < |idx| ==> r[i] == labels[idx[i]]
  {
    Take(labels, idx)
  }

  lemma {:induction false} LabelsSorted(idx: seq<nat>, labels: seq<nat>)
    requires CellsOk(idx, |labels|) && SortedCells(idx, labels)
    ensures NonDecreasing(LabelsOf(idx, labels))
  {
    var lbl := LabelsOf(idx, labels);
    forall i, j | 0 <= i < j < |lbl|
      ensures lbl[i] <= lbl[j]
    {
      assert Before(labels, idx[i], idx[j]);
    }
  }

  lemma {:induction false} FirstsAreStarts(keys: seq<int>)
    ensures StartsOk(Firsts(keys), |keys|) && (keys != [] ==> Firsts(keys) != [])
  {
    if keys != [] {
      assert Changes(keys)[0];
      assert 0 in Firsts(keys);
    }
  }

  /** A region's cells lie in its label's segment, and in no other. */
  lemma {:induction false} CellInSegment(idx: seq<nat>, labels: seq<nat>, valid: seq<nat>, k: nat, c: nat)
    returns (i: nat)
    requires Grouped(idx, labels, valid) && c < |labels|
    requires k < |Firsts(LabelsOf(idx, labels))| && Firsts(LabelsOf(idx, labels))[k] < |idx|
    requires labels[c] == labels[idx[Firsts(LabelsOf(idx, labels))[k]]]
    ensures Firsts(LabelsOf(idx, labels))[k] <= i < SegEnd(Firsts(LabelsOf(idx, labels)), k, |idx|)
    ensures i < |idx| && idx[i] == c
  {
    hide Firsts;
    LabelsSorted(idx, labels);
    assert c in idx;
    i :| 0 <= i < |idx| && idx[i] == c;
    SegmentIsRun(LabelsOf(idx, labels), k);
  }

  /** The segments are the valid labels, in order. */
  lemma {:induction false} SegmentsAreValid(idx: seq<nat>, labels: seq<nat>, valid: seq<nat>)
    requires Grouped(idx, labels, valid) && Increasing(valid)
    requires forall l :: l in valid ==> exists c :: 0 <= c < |labels| && labels[c] == l
    ensures var f := Firsts(LabelsOf(idx, labels));
      |f| == |valid| && forall k :: 0 <= k < |f| ==> f[k] < |idx| && labels[idx[f[k]]] == valid[k]
  {
    hide Firsts, SortedCells;
    LabelsSorted(idx, labels);
    var lbl := LabelsOf(idx, labels);
    FirstsBounded(lbl);
    var heads := Take(lbl, Firsts(lbl));
    forall i, j | 0 <= i < j < |heads|
      ensures heads[i] < heads[j]
    {
      HeadsIncrease(lbl, i, j);
    }
    forall l | l in valid
      ensures l in heads
    {
      var c :| 0 <= c < |labels| && labels[c] == l;
      assert c in idx;
      var i :| 0 <= i < |idx| && idx[i] == c;
      var k := SegmentOf(lbl, i);
      assert heads[k] == l;
    }
    forall l | l in heads
      ensures l in valid
    {
      var k :| 0 <= k < |heads| && heads[k] == l;
    }
    SameSorted(heads, valid);
  }

  /** Two increasing sequences of the same elements are equal. */
  lemma {:induction false} SameSorted(a: seq<nat>, b: seq<nat>)
    requires Increasing(a) && Increasing(b) && forall x :: x in a <==> x in b
    ensures a == b
  {
    if a == [] {
      assert forall i :: 0 <= i < |b| ==> b[i] in b;
    } else {
      assert a[|a| - 1] in b;
      assert b != [] && b[|b| - 1] in a;
      var m, n := |a| - 1, |b| - 1;
      LastIsLargest(a, b[n]);
      LastIsLargest(b, a[m]);
      assert a == a[..m] + [a[m]] && b == b[..n] + [b[n]];
      forall x: nat
        ensures x in a[..m] <==> x in b[..n]
      {
        InFront(a, x);
        InFront(b, x);
      }
      SameSorted(a[..m], b[..n]);
    }
  }

  lemma {:induction false} LastIsLargest(a: seq<nat>, x: nat)
    requires Increasing(a) && x in a
    ensures x <= a[|a| - 1]
  {
  }

  lemma {:induction false} InFront(a: seq<nat>, x: nat)
    requires Increasing(a) && a != []
    ensures x in a[..|a| - 1] <==> x in a && x != a[|a| - 1]
  {
    assert a == a[..|a| - 1] + [a[|a| - 1]];
  }
  // ---------- the measurement itself ----------

  function RowsOf(idx: seq<nat>, cols: nat): (r: seq<int>)
    requires 0 < cols
    ensures |r| == |idx| && forall i :: 0 <= i < |idx| ==> r[i] == RowOf(idx[i], cols)
  {
    seq(|idx|, i requires 0 <= i < |idx| => RowOf(idx[i], cols))
  }

  function ColsOf(idx: seq<nat>, cols: nat): (r: seq<int>)
    requires 0 < cols
    ensures |r| == |idx| && forall i :: 0 <= i < |idx| ==> r[i] == ColOf(idx[i], cols)
  {
    seq(|idx|, i requires 0 <= i < |idx| => ColOf(idx[i], cols))
  }

  /** The strongest power of every segment, and a place where it is. */
  method Peaks(powers: seq<real>, starts: seq<nat>) returns (peak: seq<real>, ghost w: seq<nat>)
    requires StartsOk(starts, |powers|)
    ensures |peak| == |w| == |starts|
    ensures forall k :: 0 <= k < |starts| ==>
      && starts[k] <= w[k] < SegEnd(starts, k, |powers|) <= |powers| && powers[w[k]] == peak[k]
      && forall i :: starts[k] <= i < SegEnd(starts, k, |powers|) ==> powers[i] <= peak[k]
  {
    hide Strongest, StartsOk;
    peak, w := [], [];
    for k := 0 to |starts|
      invariant |peak| == |w| == k
      invariant forall l :: 0 <= l < k ==>
        && starts[l] <= w[l] < SegEnd(starts, l, |powers|) <= |powers| && powers[w[l]] == peak[l]
        && forall i :: starts[l] <= i < SegEnd(starts, l, |powers|) ==> powers[i] <= peak[l]
    {
      SegmentFits(starts, |powers|, k);
      var m := Strongest(powers[starts[k]..SegEnd(starts, k, |powers|)]);
      ghost var i := StrongestAt(powers, starts[k], SegEnd(starts, k, |powers|));
      peak := peak + [m];
      w := w + [i];
    }
  }

  lemma {:induction false} StrongestAt(powers: seq<real>, a: nat, b: nat) returns (i: nat)
    requires a < b <= |powers|
    ensures a <= i < b && powers[i] == Strongest(powers[a..b])
    ensures forall i :: a <= i < b ==> powers[i] <= Strongest(powers[a..b])
  {
    var seg := powers[a..b];
    var j :| 0 <= j < |seg| && seg[j] == Strongest(seg);
    assert forall i :: a <= i < b ==> powers[i] == seg[i - a];
    i := a + j;
  }

  /** The record of one segment whose first peak is at `e`. */
  function RecordOf(rows: seq<int>, cols: seq<int>, a: nat, b: nat, peak: real, e: nat): Record
    requires a < b <= |rows| == |cols| && e < |cols|
  {
    Record(MinOf(rows[a..b]), MaxOf(rows[a..b]), MinOf(cols[a..b]), MaxOf(cols[a..b]), peak, cols[e])
  }

  /** Positions `[a, b)` hold exactly the cells of a region, in row-major order. */
  ghost predicate Holds(idx: seq<nat>, a: nat, b: nat, l: nat, labels: seq<nat>) {
    && a < b <= |idx|
    && (forall i :: a <= i < b ==> In(idx[i], l, labels))
    && (forall i, j :: a <= i < j < b ==> idx[i] < idx[j])
    && (forall c :: In(c, l, labels) ==> c in idx[a..b])
  }

  lemma {:induction false} PositionOf(idx: seq<nat>, a: nat, b: nat, l: nat, labels: seq<nat>, c: nat) returns (i: nat)
    requires Holds(idx, a, b, l, labels) && In(c, l, labels)
    ensures a <= i < b && idx[i] == c
  {
    assert c in idx[a..b];
    var j :| 0 <= j < b - a && idx[a..b][j] == c;
    i := a + j;
  }

  /** The reductions over the segment bound the region ... */
  lemma {:induction false} SegmentEncloses(idx: seq<nat>, labels: seq<nat>, cols: nat, a: nat, b: nat, l: nat,
                                           peak: real, e: nat)
    requires 0 < cols && Holds(idx, a, b, l, labels) && e < |idx|
    ensures Encloses(RecordOf(RowsOf(idx, cols), ColsOf(idx, cols), a, b, peak, e), l, labels, cols)
  {
    hide MinOf, MaxOf, RowOf, ColOf, Holds;
    HoldsFits(idx, a, b, l, labels);
    var rows, cs := RowsOf(idx, cols)[a..b], ColsOf(idx, cols)[a..b];
    forall c | In(c, l, labels)
      ensures MinOf(rows) <= RowOf(c, cols) <= MaxOf(rows) && MinOf(cs) <= ColOf(c, cols) <= MaxOf(cs)
    {
      InFits(c, l, labels);
      var i := PositionOf(idx, a, b, l, labels, c);
      assert rows[i - a] == RowOf(c, cols) && cs[i - a] == ColOf(c, cols);
    }
  }

  lemma {:induction false} HoldsFits(idx: seq<nat>, a: nat, b: nat, l: nat, labels: seq<nat>)
    requires Holds(idx, a, b, l, labels)
    ensures a < b <= |idx|
  {
  }

  lemma {:induction false} InFits(c: int, l: nat, labels: seq<nat>)
    requires In(c, l, labels)
    ensures 0 <= c < |labels|
  {
  }

  /** ... tightly ... */
  lemma {:induction false} SegmentTouches(idx: seq<nat>, labels: seq<nat>, cols: nat, a: nat, b: nat, l: nat,
                                          peak: real, e: nat)
    requires 0 < cols && Holds(idx, a, b, l, labels) && e < |idx|
    ensures Touches(RecordOf(RowsOf(idx, cols), ColsOf(idx, cols), a, b, peak, e), l, labels, cols)
  {
    hide MinOf, MaxOf, RowOf, ColOf, In;
    var rows, cs := RowsOf(idx, cols)[a..b], ColsOf(idx, cols)[a..b];
    RowReached(idx, cols, a, b, l, labels, MinOf(rows));
    RowReached(idx, cols, a, b, l, labels, MaxOf(rows));
    ColReached(idx, cols, a, b, l, labels, MinOf(cs));
    ColReached(idx, cols, a, b, l, labels, MaxOf(cs));
  }

  lemma {:induction false} RowReached(idx: seq<nat>, cols: nat, a: nat, b: nat, l: nat, labels: seq<nat>, x: int)
    requires 0 < cols && Holds(idx, a, b, l, labels) && x in RowsOf(idx, cols)[a..b]
    ensures exists c :: In(c, l, labels) && RowOf(c, cols) == x
  {
    var i :| 0 <= i < b - a && RowsOf(idx, cols)[a..b][i] == x;
    assert In(idx[a + i], l, labels) && RowOf(idx[a + i], cols) == x;
  }

  lemma {:induction false} ColReached(idx: seq<nat>, cols: nat, a: nat, b: nat, l: nat, labels: seq<nat>, x: int)
    requires 0 < cols && Holds(idx, a, b, l, labels) && x in ColsOf(idx, cols)[a..b]
    ensures exists c :: In(c, l, labels) && ColOf(c, cols) == x
  {
    var i :| 0 <= i < b - a && ColsOf(idx, cols)[a..b][i] == x;
    assert In(idx[a + i], l, labels) && ColOf(idx[a + i], cols) == x;
  }

  /** ... and find its first strongest cell. */
  lemma {:induction false} SegmentPeaks(idx: seq<nat>, labels: seq<nat>, power: seq<real>, cols: nat,
                                        a: nat, b: nat, l: nat, peak: real, e: nat)
    requires 0 < cols && |power| == |labels| && Holds(idx, a, b, l, labels) && a <= e < b && CellsOk(idx, |labels|)
    requires power[idx[e]] == peak && forall i :: a <= i < b ==> power[idx[i]] <= peak
    requires forall i :: a <= i < e ==> power[idx[i]] != peak
    ensures PeaksAt(RecordOf(RowsOf(idx, cols), ColsOf(idx, cols), a, b, peak, e), l, labels, power, cols)
  {
    hide MinOf, MaxOf, RowOf, ColOf;
    forall c | In(c, l, labels)
      ensures power[c] <= peak && (c < idx[e] ==> power[c] < peak)
    {
      var i := PositionOf(idx, a, b, l, labels, c);
    }
    assert In(idx[e], l, labels) && ColOf(idx[e], cols) == ColsOf(idx, cols)[e];
  }

  /** A label's segment holds exactly its region. */
  lemma {:induction false} SegmentHolds(idx: seq<nat>, labels: seq<nat>, valid: seq<nat>, starts: seq<nat>, k: nat)
    requires Grouped(idx, labels, valid) && starts == Firsts(LabelsOf(idx, labels)) && StartsOk(starts, |idx|)
    requires k < |starts|
    ensures Holds(idx, starts[k], SegEnd(starts, k, |idx|), labels[idx[starts[k]]], labels)
  {
    hide Firsts;
    var a, b := starts[k], SegEnd(starts, k, |idx|);
    var lbl := LabelsOf(idx, labels);
    LabelsSorted(idx, labels);
    SegmentIsRun(lbl, k);
    assert forall i :: a <= i < b ==> lbl[i] == lbl[a];
    forall i, j | a <= i < j < b
      ensures idx[i] < idx[j]
    {
      assert lbl[i] == lbl[j];
      assert Before(labels, idx[i], idx[j]);
    }
    forall c | In(c, labels[idx[a]], labels)
      ensures c in idx[a..b]
    {
      var i := CellInSegment(idx, labels, valid, k, c);
      assert idx[a..b][i - a] == c;
    }
  }

  /** The record that the reductions give for segment `k` describes the `k`-th valid label. */
  lemma {:induction false} RegionMeasured(idx: seq<nat>, labels: seq<nat>, valid: seq<nat>, power: seq<real>, cols: nat,
                                          starts: seq<nat>, peak: seq<real>, e: nat, k: nat)
    requires 0 < cols && |power| == |labels| && Grouped(idx, labels, valid) && CellsOk(idx, |labels|)
    requires starts == Firsts(LabelsOf(idx, labels)) && StartsOk(starts, |idx|)
    requires |starts| == |valid| == |peak| && k < |starts| && labels[idx[starts[k]]] == valid[k]
    requires FirstPeakAt(e, Take(power, idx), peak, starts, k)
    requires forall i :: starts[k] <= i < SegEnd(starts, k, |idx|) ==> i < |idx| && power[idx[i]] <= peak[k]
    ensures Describes(RecordOf(RowsOf(idx, cols), ColsOf(idx, cols), starts[k], SegEnd(starts, k, |idx|), peak[k], e),
                      valid[k], labels, power, cols)
  {
    hide Firsts, Grouped, Holds, RecordOf, Encloses, Touches, PeaksAt, Increasing;
    var a, b, l := starts[k], SegEnd(starts, k, |idx|), valid[k];
    SegmentHolds(idx, labels, valid, starts, k);
    SegmentEncloses(idx, labels, cols, a, b, l, peak[k], e);
    SegmentTouches(idx, labels, cols, a, b, l, peak[k], e);
    SegmentPeaks(idx, labels, power, cols, a, b, l, peak[k], e);
  }

  lemma {:induction false} StartsIncrease(starts: seq<nat>, n: nat)
    requires StartsOk(starts, n)
    ensures Increasing(starts) && (starts != [] ==> starts[0] == 0) && forall i :: 0 <= i < |starts| ==> starts[i] < n
  {
  }

  lemma {:induction false} GroupsFound(powers: seq<real>, starts: seq<nat>)
    requires StartsOk(starts, |powers|) && (powers != [] ==> starts != [])
    ensures Increasing(starts) && forall i :: 0 <= i < |starts| ==> starts[i] < |powers|
    ensures GroupOk(Repeated(starts, |powers|, |starts|), starts, |powers|)
  {
    hide Repeated, StartsOk;
    StartsIncrease(starts, |powers|);
    RepeatedIs(starts, |powers|, |starts|);
  }

  lemma {:induction false} PeaksSegmented(powers: seq<real>, peak: seq<real>, starts: seq<nat>, group: seq<nat>,
                                          w: seq<nat>)
    requires StartsOk(starts, |powers|) && GroupOk(group, starts, |powers|) && |peak| == |starts| == |w|
    requires forall k :: 0 <= k < |starts| ==>
      starts[k] <= w[k] < SegEnd(starts, k, |powers|) <= |powers| && powers[w[k]] == peak[k]
    ensures |group| == |powers| && forall i :: 0 <= i < |group| ==> group[i] < |peak|
    ensures Segmented(powers, peak, starts, group, AtPeak(powers, peak, group), w)
    ensures var at := AtPeak(powers, peak, group); forall i :: 0 <= i < |at| ==> at[i] < |group|
  {
    hide AtPeak;
    AtPeakIs(powers, peak, group);
    var at := AtPeak(powers, peak, group);
    forall i | 0 <= i < |at|
      ensures at[i] < |powers| && powers[at[i]] == peak[group[at[i]]]
    {
      assert at[i] in at;
    }
  }

  /** The peak of every segment and the first position that has it. */
  method PeaksAndFirsts(powers: seq<real>, starts: seq<nat>) returns (peak: seq<real>, first: seq<nat>)
    requires StartsOk(starts, |powers|) && (powers != [] ==> starts != [])
    ensures FirstPeaks(first, powers, peak, starts)
    ensures forall k :: 0 <= k < |starts| ==>
      forall i :: starts[k] <= i < SegEnd(starts, k, |powers|) && i < |powers| ==> powers[i] <= peak[k]
  {
    hide Firsts, AtPeak, Repeated, Segmented, StartsOk, GroupOk;
    ghost var w;
    peak, w := Peaks(powers, starts);
    GroupsFound(powers, starts);
    var group := Repeated(starts, |powers|, |starts|);
    PeaksSegmented(powers, peak, starts, group, w);
    var at := AtPeak(powers, peak, group);
    PeaksFound(powers, peak, starts, group, at, w);
    first := Take(at, Firsts(GroupsAt(group, at)));
  }

  /**
   All regions with a high cell, measured at once. `labels` is any labelling that is zero
   exactly on the cells that are not low; `high` marks the high cells.
   */
  method MeasureRegions(labels: seq<nat>, low: seq<bool>, high: seq<bool>, power: seq<real>, cols: nat)
    returns (valid: seq<nat>, records: seq<Record>)
    requires |low| == |high| == |power| == |labels| && 0 < cols
    requires forall c :: 0 <= c < |labels| ==> (low[c] <==> 0 < labels[c])
    ensures Increasing(valid)
    ensures forall l: nat :: l in valid <==> 0 < l && exists c :: 0 <= c < |labels| && labels[c] == l && high[c]
    ensures |records| == |valid|
    ensures forall k :: 0 <= k < |valid| ==> Measures(records[k], valid[k], labels, power, cols)
  {
    hide Firsts, ValidLabels, GroupedCells, Describes, Measures, RecordOf, SortedCells, StartsOk;
    valid, records := ValidLabels(labels, high), [];
    ValidExact(labels, high);
    if valid == [] {
      return;
    }
    var idx := GroupedCells(labels, low, valid);
    GroupedExact(labels, low, valid);
    var starts := Firsts(LabelsOf(idx, labels));
    FirstsAreStarts(LabelsOf(idx, labels));
    SegmentsAreValid(idx, labels, valid);
    assert Grouped(idx, labels, valid);
    var powers := Take(power, idx);
    var peak, first := PeaksAndFirsts(powers, starts);
    records := MakeRecords(labels, valid, power, cols, idx, starts, peak, first);
    forall k | 0 <= k < |valid|
      ensures Measures(records[k], valid[k], labels, power, cols)
    {
      DescribesMeasures(records[k], valid[k], labels, power, cols);
    }
  }

  method MakeRecords(ghost labels: seq<nat>, ghost valid: seq<nat>, ghost power: seq<real>, cols: nat,
                     idx: seq<nat>, starts: seq<nat>, peak: seq<real>, first: seq<nat>)
    returns (records: seq<Record>)
    requires 0 < cols && |power| == |labels| && CellsOk(idx, |labels|) && Grouped(idx, labels, valid)
    requires starts == Firsts(LabelsOf(idx, labels)) && StartsOk(starts, |idx|) && |starts| == |valid|
    requires forall k :: 0 <= k < |starts| ==> starts[k] < |idx| && labels[idx[starts[k]]] == valid[k]
    requires FirstPeaks(first, Take(power, idx), peak, starts)
    requires forall k :: 0 <= k < |starts| ==>
      forall i :: starts[k] <= i < SegEnd(starts, k, |idx|) && i < |idx| ==> power[idx[i]] <= peak[k]
    ensures |records| == |valid|
    ensures forall k :: 0 <= k < |valid| ==> Describes(records[k], valid[k], labels, power, cols)
  {
    hide Firsts, Describes, RecordOf, SortedCells, Grouped;
    records := [];
    for k := 0 to |starts|
      invariant |records| == k
      invariant forall j :: 0 <= j < k ==> Describes(records[j], valid[j], labels, power, cols)
    {
      SegmentFits(starts, |idx|, k);
      RegionMeasured(idx, labels, valid, power, cols, starts, peak, first[k], k);
      records := records + [RecordOf(RowsOf(idx, cols), ColsOf(idx, cols), starts[k], SegEnd(starts, k, |idx|), peak[k], first[k])];
    }
  }
}
