/**
 Folding averaged windows and stored tier rows into time buckets (`storage/avg_fold.py`).
 A chunk's rows are summed run by run and added to the buckets in one indexed update. The
 totals are proved to be the plain sums over the rows of each bucket, whatever the chunks,
 and a tier row to count exactly like the windows it was summed from.
 */
module Fold {
  import opened Arith
  import opened Measure
  import opened Wrappers

  /** What a bucket accumulates. `psd` and `cnt` are per bin. */
  datatype Totals = Totals(n: nat, avg: real, med: real, std: real, kurt: real, max: Option<real>,
                           psd: seq<real>, cnt: seq<nat>)
  {
    predicate Shaped(bins: nat) {
      |psd| == bins && |cnt| == bins
    }
  }

  function AddReals(a: seq<real>, b: seq<real>): (r: seq<real>)
    requires |a| == |b|
    ensures |r| == |a| && forall i :: 0 <= i < |a| ==> r[i] == a[i] + b[i]
  {
    seq(|a|, i requires 0 <= i < |a| => a[i] + b[i])
  }

  function AddNats(a: seq<nat>, b: seq<nat>): (r: seq<nat>)
    requires |a| == |b|
    ensures |r| == |a| && forall i :: 0 <= i < |a| ==> r[i] == a[i] + b[i]
  {
    seq(|a|, i requires 0 <= i < |a| => a[i] + b[i])
  }

  /** The larger of two maxima; `None` stands for minus infinity. */
  function Larger(a: Option<real>, b: Option<real>): Option<real> {
    if a.None? then b
    else if b.None? || b.value <= a.value then a else b
  }

  lemma {:induction false} LargerIs(a: Option<real>, b: Option<real>)
    ensures Larger(a, b) == None <==> a == None && b == None
    ensures Larger(a, b) == a || Larger(a, b) == b
    ensures a.Some? ==> a.value <= Larger(a, b).value
    ensures b.Some? ==> b.value <= Larger(a, b).value
  {
  }

  function Plus(a: Totals, b: Totals): (r: Totals)
    requires |a.psd| == |b.psd| && |a.cnt| == |b.cnt|
    ensures |r.psd| == |a.psd| && |r.cnt| == |a.cnt|
  {
    Totals(a.n + b.n, a.avg + b.avg, a.med + b.med, a.std + b.std, a.kurt + b.kurt, Larger(a.max, b.max),
           AddReals(a.psd, b.psd), AddNats(a.cnt, b.cnt))
  }

  function Zero(bins: nat): (r: Totals)
    ensures r.Shaped(bins)
  {
    Totals(0, 0.0, 0.0, 0.0, 0.0, None, seq(bins, _ => 0.0), seq(bins, _ => 0))
  }

  lemma {:induction false} PlusZero(a: Totals, bins: nat)
    requires a.Shaped(bins)
    ensures Plus(a, Zero(bins)) == a && Plus(Zero(bins), a) == a
  {
    assert AddReals(a.psd, Zero(bins).psd) == a.psd && AddReals(Zero(bins).psd, a.psd) == a.psd;
    assert AddNats(a.cnt, Zero(bins).cnt) == a.cnt && AddNats(Zero(bins).cnt, a.cnt) == a.cnt;
  }

  lemma {:induction false} PlusAssociates(a: Totals, b: Totals, c: Totals, bins: nat)
    requires a.Shaped(bins) && b.Shaped(bins) && c.Shaped(bins)
    ensures Plus(Plus(a, b), c) == Plus(a, Plus(b, c))
  {
    assert AddReals(AddReals(a.psd, b.psd), c.psd) == AddReals(a.psd, AddReals(b.psd, c.psd));
    assert AddNats(AddNats(a.cnt, b.cnt), c.cnt) == AddNats(a.cnt, AddNats(b.cnt, c.cnt));
  }

  // ---------- sums over rows ----------

  ghost predicate AllShaped(rows: seq<Totals>, bins: nat) {
    forall i :: 0 <= i < |rows| ==> rows[i].Shaped(bins)
  }

  function SumOf(rows: seq<Totals>, bins: nat): (r: Totals)
    requires AllShaped(rows, bins)
    ensures r.Shaped(bins)
  {
    if rows == [] then Zero(bins) else Plus(SumOf(rows[..|rows| - 1], bins), rows[|rows| - 1])
  }

  /** The plain sum over the rows of bucket `b`. */
  function BucketSum(rows: seq<Totals>, idx: seq<nat>, b: nat, bins: nat): (r: Totals)
    requires AllShaped(rows, bins) && |idx| == |rows|
    ensures r.Shaped(bins)
  {
    if rows == [] then Zero(bins)
    else
      var n := |rows| - 1;
      var s := BucketSum(rows[..n], idx[..n], b, bins);
      if idx[n] == b then Plus(s, rows[n]) else s
  }

  lemma {:induction false} SumConcat(a: seq<Totals>, b: seq<Totals>, bins: nat)
    requires AllShaped(a, bins) && AllShaped(b, bins)
    ensures AllShaped(a + b, bins) && SumOf(a + b, bins) == Plus(SumOf(a, bins), SumOf(b, bins))
    decreases |b|
  {
    if b == [] {
      assert a + b == a;
      PlusZero(SumOf(a, bins), bins);
    } else {
      var n := |b| - 1;
      SumConcat(a, b[..n], bins);
      assert (a + b)[..|a + b| - 1] == a + b[..n];
      PlusAssociates(SumOf(a, bins), SumOf(b[..n], bins), b[n], bins);
    }
  }

  /** Cutting the rows into chunks anywhere changes no bucket's sum. */
  lemma {:induction false} ChunksAdd(a: seq<Totals>, b: seq<Totals>, ia: seq<nat>, ib: seq<nat>, k: nat, bins: nat)
    requires AllShaped(a, bins) && AllShaped(b, bins) && |ia| == |a| && |ib| == |b|
    ensures AllShaped(a + b, bins)
    ensures BucketSum(a + b, ia + ib, k, bins) == Plus(BucketSum(a, ia, k, bins), BucketSum(b, ib, k, bins))
    decreases |b|
  {
    if b == [] {
      assert a + b == a && ia + ib == ia;
      PlusZero(BucketSum(a, ia, k, bins), bins);
    } else {
      var n := |b| - 1;
      ChunksAdd(a, b[..n], ia, ib[..n], k, bins);
      assert (a + b)[..|a + b| - 1] == a + b[..n] && (ia + ib)[..|ia + ib| - 1] == ia + ib[..n];
      PlusAssociates(BucketSum(a, ia, k, bins), BucketSum(b[..n], ib[..n], k, bins), b[n], bins);
    }
  }

  // ---------- runs are buckets ----------

  /** Rows `[a, e)` are those of bucket `b`: its sum below row `i`. */
  lemma {:induction false} BucketPrefix(rows: seq<Totals>, idx: seq<nat>, b: nat, a: nat, e: nat, i: nat, bins: nat)
    requires AllShaped(rows, bins) && |idx| == |rows| && a <= e <= |rows| && i <= |rows|
    requires forall j :: 0 <= j < |rows| ==> (idx[j] == b <==> a <= j < e)
    ensures BucketSum(rows[..i], idx[..i], b, bins)
         == SumOf(if i <= a then [] else if i <= e then rows[a..i] else rows[a..e], bins)
  {
    if i == 0 {
    } else {
      BucketPrefix(rows, idx, b, a, e, i - 1, bins);
      assert rows[..i][..i - 1] == rows[..i - 1] && idx[..i][..i - 1] == idx[..i - 1];
      if a < i <= e {
        assert rows[a..i][..i - 1 - a] == rows[a..i - 1];
      }
    }
  }

  /** A run's sum is its bucket's sum. */
  lemma {:induction false} RunIsBucket(rows: seq<Totals>, idx: seq<nat>, k: nat, bins: nat)
    requires AllShaped(rows, bins) && |idx| == |rows| && NonDecreasing(idx) && k < |Firsts(idx)|
    ensures Firsts(idx)[k] < SegEnd(Firsts(idx), k, |idx|) <= |idx|
    ensures SumOf(rows[Firsts(idx)[k]..SegEnd(Firsts(idx), k, |idx|)], bins)
         == BucketSum(rows, idx, idx[Firsts(idx)[k]], bins)
  {
    hide Firsts, NonDecreasing;
    SegmentIsRun(idx, k);
    var a, e := Firsts(idx)[k], SegEnd(Firsts(idx), k, |idx|);
    BucketPrefix(rows, idx, idx[a], a, e, |rows|, bins);
    assert rows[..|rows|] == rows && idx[..|idx|] == idx;
  }

  lemma {:induction false} EmptyBucket(rows: seq<Totals>, idx: seq<nat>, b: nat, bins: nat)
    requires AllShaped(rows, bins) && |idx| == |rows| && b !in idx
    ensures BucketSum(rows, idx, b, bins) == Zero(bins)
  {
    if rows != [] {
      EmptyBucket(rows[..|rows| - 1], idx[..|rows| - 1], b, bins);
    }
  }

  class TimeFold {
    const bins: nat
    const totals: array<Totals>

    ghost predicate Valid()
      reads totals
    {
      forall b :: 0 <= b < totals.Length ==> totals[b].Shaped(bins)
    }

    constructor (buckets: nat, bins: nat)
      ensures Valid() && fresh(totals) && totals.Length == buckets && this.bins == bins
      ensures forall b :: 0 <= b < buckets ==> totals[b] == Zero(bins)
    {
      this.bins := bins;
      totals := new Totals[buckets](_ => Zero(bins));
    }

    /**
     One chunk of rows, in time order. The indexed update reads every bucket before it writes
     any, so it is right only because each bucket is a single run.
     */
    method AddRows(rows: seq<Totals>, idx: seq<nat>)
      requires Valid() && AllShaped(rows, bins) && |idx| == |rows|
      requires NonDecreasing(idx) && forall i :: 0 <= i < |idx| ==> idx[i] < totals.Length
      modifies totals
      ensures Valid()
      ensures forall b :: 0 <= b < totals.Length ==>
        totals[b] == Plus(old(totals[b]), BucketSum(rows, idx, b, bins))
    {
      hide Firsts, NonDecreasing, BucketSum, SumOf, Plus, Zero;
      var starts := Firsts(idx);
      FirstsAreStarts(idx);
      forall k, l | 0 <= k < l < |starts|
        ensures idx[starts[k]] < idx[starts[l]]
      {
        HeadsIncrease(idx, k, l);
      }
      forall k | 0 <= k < |starts|
        ensures starts[k] < SegEnd(starts, k, |idx|) <= |idx|
        ensures AllShaped(rows[starts[k]..SegEnd(starts, k, |idx|)], bins)
        ensures SumOf(rows[starts[k]..SegEnd(starts, k, |idx|)], bins) == BucketSum(rows, idx, idx[starts[k]], bins)
      {
        RunIsBucket(rows, idx, k, bins);
      }
      forall k | 0 <= k < |starts| {
        totals[idx[starts[k]]] := Plus(totals[idx[starts[k]]], SumOf(rows[starts[k]..SegEnd(starts, k, |idx|)], bins));
      }
      forall b | 0 <= b < totals.Length
        ensures totals[b].Shaped(bins) && totals[b] == Plus(old(totals[b]), BucketSum(rows, idx, b, bins))
      {
        if b in idx {
          var i :| 0 <= i < |idx| && idx[i] == b;
          var k := SegmentOf(idx, i);
        } else {
          EmptyBucket(rows, idx, b, bins);
          PlusZero(old(totals[b]), bins);
        }
      }
    }
  }
  // ---------- what a row contributes ----------

  /** An averaged window; `blob` is its PSD, empty when it has none. */
  datatype Window = Window(avg: Option<real>, max: Option<real>, med: Option<real>, std: Option<real>,
                           kurt: Option<real>, blob: seq<real>)

  /** A stored tier row: counts, sums, and the mean PSD of the windows that had one. */
  datatype Tier = Tier(n: nat, nPsd: nat, sumAvg: real, maxMax: Option<real>, sumMed: real, sumStd: real,
                       sumKurt: real, mean: seq<real>)

  function Value(x: Option<real>): real {
    if x.Some? then x.value else 0.0
  }

  function GroupSum(s: seq<real>, from: nat, n: nat): real
    requires from + n <= |s|
  {
    if n == 0 then 0.0 else GroupSum(s, from, n - 1) + s[from + n - 1]
  }

  lemma {:induction false} GroupFits(k: nat, bins: nat, width: nat)
    requires k < bins < width
    ensures 0 < width / bins && k * (width / bins) + width / bins <= width
  {
    var f := width / bins;
    assert width == bins * f + width % bins;
    assert f == 0 ==> bins * f == 0;
    MulMonotone(k + 1, bins, f);
    assert (k + 1) * f == k * f + f;
  }

  /** One bin: the mean of a group of adjacent bins when the row is wider than `bins`, the
      bin itself when it is not, and nothing behind a narrower row's end. */
  function Bin(blob: seq<real>, bins: nat, k: nat): real
    requires k < bins
  {
    if |blob| > bins then
      GroupFits(k, bins, |blob|);
      GroupSum(blob, k * (|blob| / bins), |blob| / bins) / (|blob| / bins) as real
    else if k < |blob| then blob[k]
    else 0.0
  }

  function Decode(blob: seq<real>, bins: nat): (r: seq<real>)
    ensures |r| == bins && forall k :: 0 <= k < bins ==> r[k] == Bin(blob, bins, k)
  {
    seq(bins, k requires 0 <= k < bins => Bin(blob, bins, k))
  }

  /** Which bins a row of this width has, each counted `weight` times. */
  function Counted(width: nat, bins: nat, weight: nat): (r: seq<nat>)
    ensures |r| == bins && forall k :: 0 <= k < bins ==> r[k] == if k < width then weight else 0
  {
    seq(bins, k requires 0 <= k < bins => if k < width then weight else 0)
  }

  function Scale(s: seq<real>, c: real): (r: seq<real>)
    ensures |r| == |s| && forall k :: 0 <= k < |s| ==> r[k] == s[k] * c
  {
    seq(|s|, k requires 0 <= k < |s| => s[k] * c)
  }

  function OfWindow(w: Window, bins: nat): (r: Totals)
    ensures r.Shaped(bins)
  {
    Totals(1, Value(w.avg), Value(w.med), Value(w.std), Value(w.kurt), w.max,
           Decode(w.blob, bins), Counted(|w.blob|, bins, 1))
  }

  function OfTier(t: Tier, bins: nat): (r: Totals)
    ensures r.Shaped(bins)
  {
    var has := t.mean != [] && 0 < t.nPsd;
    Totals(t.n, t.sumAvg, t.sumMed, t.sumStd, t.sumKurt, t.maxMax,
           if has then Scale(Decode(t.mean, bins), t.nPsd as real) else Zero(bins).psd,
           if has then Counted(|t.mean|, bins, t.nPsd) else Zero(bins).cnt)
  }

  // ---------- tier rows ----------

  predicate Uniform(ws: seq<Window>, width: nat) {
    forall i :: 0 <= i < |ws| ==> ws[i].blob == [] || |ws[i].blob| == width
  }

  /** The tier row of a period before its PSD sum is divided: `mean` holds the sum. */
  function Summed(ws: seq<Window>, width: nat): (t: Tier)
    requires Uniform(ws, width)
    ensures |t.mean| == width && t.n == |ws| && t.nPsd <= |ws|
  {
    if ws == [] then Tier(0, 0, 0.0, None, 0.0, 0.0, 0.0, Copies(width, 0.0))
    else WithWindow(Summed(ws[..|ws| - 1], width), ws[|ws| - 1], width)
  }

  /** A tier sum with one more window. */
  function WithWindow(t: Tier, w: Window, width: nat): (r: Tier)
    requires |t.mean| == width && (w.blob == [] || |w.blob| == width)
    ensures |r.mean| == width && r.n == t.n + 1 && t.nPsd <= r.nPsd <= t.nPsd + 1
  {
    Tier(t.n + 1, t.nPsd + (if w.blob != [] then 1 else 0), t.sumAvg + Value(w.avg), Larger(t.maxMax, w.max),
         t.sumMed + Value(w.med), t.sumStd + Value(w.std), t.sumKurt + Value(w.kurt),
         if w.blob != [] then AddReals(t.mean, w.blob) else t.mean)
  }

  /** The tier row that a period's windows are stored as. */
  function TierOf(ws: seq<Window>, width: nat): Tier
    requires Uniform(ws, width)
  {
    var t := Summed(ws, width);
    t.(mean := if t.nPsd == 0 then [] else Scale(t.mean, 1.0 / t.nPsd as real))
  }

  lemma {:induction false} GroupSumAdds(a: seq<real>, b: seq<real>, from: nat, n: nat)
    requires |a| == |b| && from + n <= |a|
    ensures GroupSum(AddReals(a, b), from, n) == GroupSum(a, from, n) + GroupSum(b, from, n)
  {
    if n == 0 {
    } else {
      GroupSumAdds(a, b, from, n - 1);
    }
  }

  lemma {:induction false} GroupSumScales(a: seq<real>, c: real, from: nat, n: nat)
    requires from + n <= |a|
    ensures GroupSum(Scale(a, c), from, n) == GroupSum(a, from, n) * c
  {
    if n == 0 {
    } else {
      GroupSumScales(a, c, from, n - 1);
      Distribute(GroupSum(a, from, n - 1), a[from + n - 1], c);
    }
  }

  lemma {:induction false} Distribute(x: real, y: real, c: real)
    ensures (x + y) * c == x * c + y * c
  {
  }

  lemma {:induction false} QuotientAdds(x: real, y: real, d: real)
    requires d != 0.0
    ensures (x + y) / d == x / d + y / d
  {
  }

  lemma {:induction false} QuotientScales(x: real, c: real, d: real)
    requires d != 0.0
    ensures (x * c) / d == x / d * c
  {
    assert x == x / d * d;
    assert x * c == (x / d * c) * d;
  }

  /** Averaging groups of bins commutes with adding rows ... */
  lemma {:induction false} BinAdds(a: seq<real>, b: seq<real>, bins: nat, k: nat)
    requires |a| == |b| && k < bins
    ensures Bin(AddReals(a, b), bins, k) == Bin(a, bins, k) + Bin(b, bins, k)
  {
    hide GroupSum, AddReals;
    if |a| > bins {
      var from, f := BinIsMean(a, bins, k);
      var from', f' := BinIsMean(b, bins, k);
      var from'', f'' := BinIsMean(AddReals(a, b), bins, k);
      GroupSumAdds(a, b, from, f);
      QuotientAdds(GroupSum(a, from, f), GroupSum(b, from, f), f as real);
    }
  }

  /** ... and with scaling them. */
  lemma {:induction false} BinScales(a: seq<real>, c: real, bins: nat, k: nat)
    requires k < bins
    ensures Bin(Scale(a, c), bins, k) == Bin(a, bins, k) * c
  {
    hide GroupSum, Scale;
    if |a| > bins {
      var from, f := BinIsMean(a, bins, k);
      var from', f' := BinIsMean(Scale(a, c), bins, k);
      GroupSumScales(a, c, from, f);
      QuotientScales(GroupSum(a, from, f), c, f as real);
    }
  }

  lemma {:induction false} BinIsMean(s: seq<real>, bins: nat, k: nat) returns (from: nat, f: nat)
    requires k < bins < |s|
    ensures f == |s| / bins && 0 < f && from == k * f && from + f <= |s|
    ensures Bin(s, bins, k) == GroupSum(s, from, f) / f as real
  {
    GroupFits(k, bins, |s|);
    f := |s| / bins;
    from := k * f;
  }

  /** The value at `p` goes to the one group that holds `p`, divided by the group's width, and
      to no other; a row of at most `bins` values keeps it in place. */
  lemma {:induction false} BinOfOne(s: seq<real>, bins: nat, k: nat, p: nat)
    requires k < bins && p < |s| && forall i :: 0 <= i < |s| && i != p ==> s[i] == 0.0
    ensures Bin(s, bins, k) ==
      if |s| <= bins then (if k == p then s[p] else 0.0)
      else var f := |s| / bins;
        if k * f <= p < k * f + f then s[p] / f as real else 0.0
  {
    if |s| > bins {
      GroupFits(k, bins, |s|);
      SumOfOneValue(s, k * (|s| / bins), |s| / bins, p);
    }
  }

  lemma {:induction false} SumOfOneValue(s: seq<real>, from: nat, n: nat, p: nat)
    requires from + n <= |s| && p < |s| && forall i :: 0 <= i < |s| && i != p ==> s[i] == 0.0
    ensures GroupSum(s, from, n) == if from <= p < from + n then s[p] else 0.0
  {
    if n > 0 {
      SumOfOneValue(s, from, n - 1, p);
    }
  }

  /** A window counts once, with its own values; what it does not have adds nothing. */
  lemma {:induction false} WindowCounts(w: Window, bins: nat)
    ensures var t := OfWindow(w, bins);
      && t.n == 1 && t.max == w.max
      && (w.avg == None ==> t.avg == 0.0) && (w.avg.Some? ==> t.avg == w.avg.value)
      && (w.med == None ==> t.med == 0.0) && (w.med.Some? ==> t.med == w.med.value)
      && (w.std == None ==> t.std == 0.0) && (w.std.Some? ==> t.std == w.std.value)
      && (w.kurt == None ==> t.kurt == 0.0) && (w.kurt.Some? ==> t.kurt == w.kurt.value)
      && (w.blob == [] ==> t.psd == Zero(bins).psd && t.cnt == Zero(bins).cnt)
  {
    assert Decode([], bins) == Zero(bins).psd && Counted(0, bins, 1) == Zero(bins).cnt;
  }

  lemma {:induction false} BinOfNothing(s: seq<real>, bins: nat, k: nat)
    requires k < bins && forall i :: 0 <= i < |s| ==> s[i] == 0.0
    ensures Bin(s, bins, k) == 0.0
  {
    if |s| > bins {
      GroupFits(k, bins, |s|);
      SumOfNothing(s, k * (|s| / bins), |s| / bins);
    }
  }

  lemma {:induction false} SumOfNothing(s: seq<real>, from: nat, n: nat)
    requires from + n <= |s| && forall i :: 0 <= i < |s| ==> s[i] == 0.0
    ensures GroupSum(s, from, n) == 0.0
  {
    if n == 0 {
    } else {
      SumOfNothing(s, from, n - 1);
    }
  }

  /** The windows' contributions, one by one. */
  function OfWindows(ws: seq<Window>, bins: nat): (r: seq<Totals>)
    ensures |r| == |ws| && AllShaped(r, bins) && forall i :: 0 <= i < |ws| ==> r[i] == OfWindow(ws[i], bins)
  {
    seq(|ws|, i requires 0 <= i < |ws| => OfWindow(ws[i], bins))
  }

  /** A tier sum as a bucket's totals. */
  function AsTotals(t: Tier, width: nat, bins: nat): (r: Totals)
    ensures r.Shaped(bins)
  {
    Totals(t.n, t.sumAvg, t.sumMed, t.sumStd, t.sumKurt, t.maxMax, Decode(t.mean, bins), Counted(width, bins, t.nPsd))
  }

  lemma {:induction false} WindowStep(t: Tier, w: Window, width: nat, bins: nat)
    requires |t.mean| == width && 0 < width && (w.blob == [] || |w.blob| == width)
    ensures Plus(AsTotals(t, width, bins), OfWindow(w, bins)) == AsTotals(WithWindow(t, w, width), width, bins)
  {
    hide Decode, Counted, Larger;
    WindowAdds(t, w, width, bins);
  }

  /** What windows add up to, in terms of their sums. */
  lemma {:induction false} WindowsSum(ws: seq<Window>, width: nat, bins: nat)
    requires Uniform(ws, width) && 0 < width
    ensures SumOf(OfWindows(ws, bins), bins) == AsTotals(Summed(ws, width), width, bins)
  {
    hide OfWindow, WithWindow, Plus;
    if ws == [] {
      NothingDecoded(width, bins);
    } else {
      hide AsTotals;
      var n := |ws| - 1;
      WindowsSum(ws[..n], width, bins);
      assert OfWindows(ws, bins)[..n] == OfWindows(ws[..n], bins);
      WindowStep(Summed(ws[..n], width), ws[n], width, bins);
    }
  }

  lemma {:induction false} NothingDecoded(width: nat, bins: nat)
    ensures Decode(Copies(width, 0.0), bins) == Zero(bins).psd && Counted(width, bins, 0) == Zero(bins).cnt
  {
    hide Bin;
    forall k: nat | k < bins
      ensures Decode(Copies(width, 0.0), bins)[k] == 0.0
    {
      BinOfNothing(Copies(width, 0.0), bins, k);
    }
  }

  /** One window's PSD and counts, added to those of the windows before it. */
  lemma {:induction false} WindowAdds(t: Tier, w: Window, width: nat, bins: nat)
    requires |t.mean| == width && 0 < width && (w.blob == [] || |w.blob| == width)
    ensures AddReals(Decode(t.mean, bins), Decode(w.blob, bins))
         == Decode(if w.blob != [] then AddReals(t.mean, w.blob) else t.mean, bins)
    ensures AddNats(Counted(width, bins, t.nPsd), Counted(|w.blob|, bins, 1))
         == Counted(width, bins, t.nPsd + (if w.blob != [] then 1 else 0))
  {
    hide Bin;
    forall k: nat | k < bins
      ensures w.blob != [] ==> Bin(AddReals(t.mean, w.blob), bins, k) == Bin(t.mean, bins, k) + Bin(w.blob, bins, k)
      ensures w.blob == [] ==> Bin(w.blob, bins, k) == 0.0
    {
      if w.blob != [] {
        BinAdds(t.mean, w.blob, bins, k);
      } else {
        BinOfNothing(w.blob, bins, k);
      }
    }
  }

  /** A tier row counts exactly like the windows it was made of. */
  lemma {:induction false} TierIsItsWindows(ws: seq<Window>, width: nat, bins: nat)
    requires Uniform(ws, width) && 0 < width
    ensures OfTier(TierOf(ws, width), bins) == SumOf(OfWindows(ws, bins), bins)
  {
    hide Bin, Decode, Summed;
    WindowsSum(ws, width, bins);
    var t := Summed(ws, width);
    if t.nPsd == 0 {
      NoPsd(ws, width);
      forall k: nat | k < bins
        ensures Decode(t.mean, bins)[k] == 0.0
      {
        BinOfNothing(t.mean, bins, k);
      }
      assert Decode(t.mean, bins) == Zero(bins).psd && Counted(width, bins, 0) == Zero(bins).cnt;
    } else {
      var c := t.nPsd as real;
      var back := Scale(Decode(Scale(t.mean, 1.0 / c), bins), c);
      forall k: nat | k < bins
        ensures back[k] == Decode(t.mean, bins)[k]
      {
        assert Decode(Scale(t.mean, 1.0 / c), bins)[k] == Bin(Scale(t.mean, 1.0 / c), bins, k);
        BinScales(t.mean, 1.0 / c, bins, k);
        Unscale(Bin(t.mean, bins, k), c);
      }
      assert Scale(Decode(Scale(t.mean, 1.0 / c), bins), c) == Decode(t.mean, bins);
    }
  }

  lemma {:induction false} Unscale(x: real, c: real)
    requires c != 0.0
    ensures x * (1.0 / c) * c == x
  {
  }

  lemma {:induction false} NoPsd(ws: seq<Window>, width: nat)
    requires Uniform(ws, width) && 0 < width && Summed(ws, width).nPsd == 0
    ensures forall k :: 0 <= k < width ==> Summed(ws, width).mean[k] == 0.0
  {
    if ws == [] {
    } else {
      NoPsd(ws[..|ws| - 1], width);
    }
  }
  // ---------- tier rows in place of windows ----------

  function Repeat(b: nat, n: nat): (r: seq<nat>)
    ensures |r| == n && forall i :: 0 <= i < n ==> r[i] == b
  {
    seq(n, _ => b)
  }

  /** Rows of a single bucket. */
  lemma {:induction false} OneBucket(rows: seq<Totals>, j: nat, b: nat, bins: nat)
    requires AllShaped(rows, bins)
    ensures BucketSum(rows, Repeat(j, |rows|), b, bins) == if b == j then SumOf(rows, bins) else Zero(bins)
  {
    hide Plus;
    if rows == [] {
    } else {
      var n := |rows| - 1;
      OneBucket(rows[..n], j, b, bins);
      assert Repeat(j, |rows|)[..n] == Repeat(j, n);
    }
  }

  /** Replacing a period's windows by its tier row changes no bucket, whatever rows come
      before and after. */
  lemma {:induction false} TierReplacesWindows(ws: seq<Window>, width: nat, j: nat, b: nat, bins: nat,
                                               before: seq<Totals>, ib: seq<nat>, after: seq<Totals>, ia: seq<nat>)
    requires Uniform(ws, width) && 0 < width
    requires AllShaped(before, bins) && AllShaped(after, bins) && |ib| == |before| && |ia| == |after|
    ensures BucketSum(before + OfWindows(ws, bins) + after, ib + Repeat(j, |ws|) + ia, b, bins)
         == BucketSum(before + [OfTier(TierOf(ws, width), bins)] + after, ib + Repeat(j, 1) + ia, b, bins)
  {
    hide BucketSum, Plus, OfTier, TierOf, Zero;
    var rows, tier := OfWindows(ws, bins), [OfTier(TierOf(ws, width), bins)];
    OneBucket(rows, j, b, bins);
    OneBucket(tier, j, b, bins);
    TierIsItsWindows(ws, width, bins);
    SumOfOne(tier[0], bins);
    ChunksAdd(before, rows, ib, Repeat(j, |ws|), b, bins);
    ChunksAdd(before + rows, after, ib + Repeat(j, |ws|), ia, b, bins);
    ChunksAdd(before, tier, ib, Repeat(j, 1), b, bins);
    ChunksAdd(before + tier, after, ib + Repeat(j, 1), ia, b, bins);
  }

  lemma {:induction false} SumOfOne(t: Totals, bins: nat)
    requires t.Shaped(bins)
    ensures SumOf([t], bins) == t
  {
    assert [t][..0] == [];
    PlusZero(t, bins);
  }

  // ---------- the grid of buckets ----------

  function Truncate(x: real): int {
    if 0.0 <= x then x.Floor else -((-x).Floor)
  }

  function Clip(i: int, n: nat): nat
    requires 0 < n
  {
    if i < 0 then 0 else if i < n then i else n - 1
  }

  function BucketOf(epoch: real, anchor: real, bucketSec: real, n: nat): (i: nat)
    requires 0.0 < bucketSec && 0 < n
    ensures i < n
  {
    Clip(Truncate((epoch - anchor) / bucketSec), n)
  }

  /** A row lies in the bucket whose stretch holds its time; the first bucket also takes
      everything before, and the last everything behind. */
  lemma {:induction false} BucketIs(epoch: real, anchor: real, bucketSec: real, n: nat, i: nat)
    requires 0.0 < bucketSec && i < n
    ensures BucketOf(epoch, anchor, bucketSec, n) == i <==>
      && (i == 0 || anchor + i as real * bucketSec <= epoch)
      && (i == n - 1 || epoch < anchor + (i + 1) as real * bucketSec)
  {
    hide Clip, Truncate;
    var x := (epoch - anchor) / bucketSec;
    InBuckets(epoch - anchor, bucketSec, i as real);
    InBuckets(epoch - anchor, bucketSec, (i + 1) as real);
    ClippedAt(x, n, i);
  }

  lemma {:induction false} InBuckets(t: real, bucketSec: real, i: real)
    requires 0.0 < bucketSec
    ensures i <= t / bucketSec <==> i * bucketSec <= t
    ensures t / bucketSec < i <==> t < i * bucketSec
  {
    var x := t / bucketSec;
    assert x * bucketSec == t;
    TimesPeriod(i, x, bucketSec);
    TimesPeriod(x, i, bucketSec);
  }

  lemma {:induction false} ClippedAt(x: real, n: nat, i: nat)
    requires i < n
    ensures Clip(Truncate(x), n) == i <==> (i == 0 || i as real <= x) && (i == n - 1 || x < (i + 1) as real)
  {
    if x < 0.0 {
      assert 0 <= (-x).Floor;
    }
  }

  /** Rows in time order have bucket numbers in order. */
  lemma {:induction false} BucketsInOrder(e: real, f: real, anchor: real, bucketSec: real, n: nat)
    requires 0.0 < bucketSec && 0 < n && e <= f
    ensures BucketOf(e, anchor, bucketSec, n) <= BucketOf(f, anchor, bucketSec, n)
  {
    QuotientGrows(e - anchor, f - anchor, bucketSec);
  }

  lemma {:induction false} QuotientGrows(x: real, y: real, d: real)
    requires 0.0 < d && x <= y
    ensures x / d <= y / d
  {
  }

  /** Every window of a tier period lies in the tier row's bucket, when a bucket is a whole
      number `m` of periods: `j` and `q` count periods to the tier row and buckets to the
      anchor. */
  lemma {:induction false} PeriodInOneBucket(e: real, j: int, q: int, m: nat, period: real, n: nat)
    requires 0.0 < period && 0 < m && 0 < n
    requires j as real * period <= e < (j + 1) as real * period
    ensures m as real * period > 0.0
    ensures BucketOf(e, (q * m) as real * period, m as real * period, n)
         == BucketOf(j as real * period, (q * m) as real * period, m as real * period, n)
  {
    Periods(e, j, q * m, m, period);
    Positive(m, period);
    InUnit((e - (q * m) as real * period) / period, j - q * m, m);
    WholeQuotient(j - q * m, m);
  }

  lemma {:induction false} Positive(m: nat, period: real)
    requires 0.0 < period && 0 < m
    ensures m as real * period > 0.0
  {
  }

  /** Distances in periods. */
  lemma {:induction false} Periods(e: real, j: int, a: int, m: nat, period: real)
    requires 0.0 < period && 0 < m && j as real * period <= e < (j + 1) as real * period
    ensures m as real * period > 0.0
    ensures var x := (e - a as real * period) / period;
      && (j - a) as real <= x < (j - a + 1) as real
      && (e - a as real * period) / (m as real * period) == x / m as real
    ensures (j as real * period - a as real * period) / (m as real * period) == (j - a) as real / m as real
  {
    Positive(m, period);
    var x := (e - a as real * period) / period;
    assert x * period == e - a as real * period;
    TimesPeriod((j - a) as real, x, period);
    TimesPeriod(x, (j - a + 1) as real, period);
    OverPeriods(x, m as real, period);
    OverPeriods((j - a) as real, m as real, period);
    assert (j - a) as real * period == j as real * period - a as real * period;
  }

  lemma {:induction false} TimesPeriod(x: real, y: real, period: real)
    requires 0.0 < period
    ensures x * period <= y * period <==> x <= y
    ensures x * period < y * period <==> x < y
  {
    if x < y {
      assert (y - x) * period > 0.0;
    } else if y < x {
      assert (x - y) * period > 0.0;
    }
  }

  lemma {:induction false} OverPeriods(x: real, m: real, period: real)
    requires 0.0 < period && 0.0 < m
    ensures m * period > 0.0 && (x * period) / (m * period) == x / m
  {
    assert x == x / m * m;
    assert x * period == x / m * (m * period);
  }

  /** A whole number of periods and anything less than one period more have the same floor
      in buckets of `m` periods, also when it is negative and cut to zero. */
  lemma {:induction false} InUnit(x: real, k: int, m: nat)
    requires 0 < m && k as real <= x < (k + 1) as real
    ensures (x / m as real).Floor == k / m
    ensures 0 <= k ==> 0.0 <= x / m as real
    ensures k < 0 ==> x / m as real < 0.0
  {
    var q, r, d := k / m, k % m, m as real;
    assert k == m * q + r && r + 1 <= m;
    assert k as real == d * q as real + r as real;
    var y := x - d * q as real;
    assert x / d == q as real + y / d by {
      assert x == d * q as real + y;
      assert d * q as real / d == q as real;
      QuotientAdds(d * q as real, y, d);
    }
    assert r as real <= y < d;
    BelowOne(y, d);
    if k < 0 {
      assert x < 0.0 by {
        assert (k + 1) as real <= 0.0;
      }
      NegativeQuotient(x, d);
    } else {
      QuotientGrows(0.0, x, d);
    }
  }

  lemma {:induction false} BelowOne(y: real, d: real)
    requires 0.0 <= y < d
    ensures 0.0 <= y / d < 1.0
  {
  }

  lemma {:induction false} NegativeQuotient(x: real, d: real)
    requires x < 0.0 < d
    ensures x / d < 0.0
  {
  }

  lemma {:induction false} WholeQuotient(k: int, m: nat)
    requires 0 < m
    ensures (k as real / m as real).Floor == k / m
    ensures 0 <= k ==> 0.0 <= k as real / m as real
    ensures k < 0 ==> k as real / m as real < 0.0
  {
    InUnit(k as real, k, m);
  }
}
