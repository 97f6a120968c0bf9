/**
 The bookkeeping of a run file (`schedules/cutter.py`): write operations, the list
 of zero-filled stretches, and the map from stream positions to file indices.
 */
module CutFile {
  import opened Arith
  import opened Wrappers
  import opened Timeline

  /** A write operation handed to the writer. */
  datatype Op<+T> = Iq(data: seq<T>) | Zeros(count: nat)

  /** A zero-filled stretch of the file. */
  datatype Run = Run(at: nat, count: nat)

  /** Zero fill by stream position: the position it precedes, zeros written up to it. */
  datatype Break = Break(at: int, zeros: nat)

  // ---------- write operations as file contents ----------

  function Play<T>(ops: seq<Op<T>>): seq<Option<T>> {
    if ops == [] then []
    else Play(ops[..|ops| - 1]) + PlayOne(ops[|ops| - 1])
  }

  function PlayOne<T>(op: Op<T>): seq<Option<T>> {
    match op
    case Iq(d) => seq(|d|, i requires 0 <= i < |d| => Some(d[i]))
    case Zeros(k) => seq(k, _ => None)
  }

  function Erase<T>(cells: seq<Cell<T>>): seq<Option<T>> {
    seq(|cells|, i requires 0 <= i < |cells| => if cells[i].Got? then Some(cells[i].v) else None)
  }

  lemma {:induction false} PlaySnoc<T>(ops: seq<Op<T>>, op: Op<T>)
    ensures Play(ops + [op]) == Play(ops) + PlayOne(op)
  {
    assert (ops + [op])[..|ops + [op]| - 1] == ops;
  }

  // ---------- zero runs ----------

  /** A gap list after `k` more zeros at index `at`: they join a gap that ends there. */
  function ExtendRuns(runs: seq<Run>, at: nat, k: nat): seq<Run> {
    if runs != [] && runs[|runs| - 1].at + runs[|runs| - 1].count == at
    then runs[..|runs| - 1] + [Run(runs[|runs| - 1].at, runs[|runs| - 1].count + k)]
    else runs + [Run(at, k)]
  }

  /** The stretches of the file that hold no stream sample. */
  function FillRuns<T>(file: seq<Cell<T>>): seq<Run> {
    if file == [] then []
    else
      var k := |file| - 1;
      var r := FillRuns(file[..k]);
      if file[k].Got? then r else ExtendRuns(r, k, 1)
  }

  function FillCount<T>(file: seq<Cell<T>>): nat {
    if file == [] then 0
    else FillCount(file[..|file| - 1]) + (if file[|file| - 1].Got? then 0 else 1)
  }

  /** It counts the cells that are no samples. */
  lemma {:induction false} FillCountIs<T>(file: seq<Cell<T>>)
    ensures FillCount(file) == |set i: nat | i < |file| && !file[i].Got?|
    ensures FillCount(file) == 0 <==> forall i :: 0 <= i < |file| ==> file[i].Got?
  {
    var fills := set i: nat | i < |file| && !file[i].Got?;
    if file == [] {
      assert fills == {};
    } else {
      FillCountIs(file[..|file| - 1]);
      FillsOneMore(file);
    }
  }

  lemma {:induction false} FillsOneMore<T>(file: seq<Cell<T>>)
    requires file != []
    ensures var k := |file| - 1;
      && |set i: nat | i < |file| && !file[i].Got?|
         == |set i: nat | i < k && !file[..k][i].Got?| + (if file[k].Got? then 0 else 1)
      && ((forall i :: 0 <= i < |file| ==> file[i].Got?) <==>
            file[k].Got? && forall i :: 0 <= i < k ==> file[..k][i].Got?)
  {
    var k := |file| - 1;
    var before := set i: nat | i < k && !file[..k][i].Got?;
    var fills := set i: nat | i < |file| && !file[i].Got?;
    assert forall i :: 0 <= i < k ==> file[..k][i] == file[i];
    assert fills == if file[k].Got? then before else before + {k};
  }

  function RunTotal(runs: seq<Run>): nat {
    if runs == [] then 0 else RunTotal(runs[..|runs| - 1]) + runs[|runs| - 1].count
  }

  predicate Covers(run: Run, i: int) {
    run.at <= i < run.at + run.count
  }

  /** `runs` are in order, apart from each other, and hold exactly the cells of
      `file` that are not samples. */
  ghost predicate AreMaximalFills<T>(runs: seq<Run>, file: seq<Cell<T>>) {
    && (forall j :: 0 <= j < |runs| ==> 0 < runs[j].count && runs[j].at + runs[j].count <= |file|)
    && (forall j, k :: 0 <= j < k < |runs| ==> runs[j].at + runs[j].count < runs[k].at)
    && (forall j, i :: 0 <= j < |runs| && 0 <= i < |file| && Covers(runs[j], i) ==> !file[i].Got?)
    && (forall i :: 0 <= i < |file| && !file[i].Got? ==>
          exists j :: 0 <= j < |runs| && Covers(runs[j], i))
  }

  /** The gap list is exactly the maximal zero runs, and sums to the fill count. */
  lemma {:induction false} FillRunsAreMaximal<T>(file: seq<Cell<T>>)
    ensures AreMaximalFills(FillRuns(file), file)
    ensures RunTotal(FillRuns(file)) == FillCount(file)
  {
    if file != [] {
      var k := |file| - 1;
      FillRunsAreMaximal(file[..k]);
      MaximalStep(file, FillRuns(file[..k]));
      TotalStep(file);
    }
  }

  lemma {:induction false} TotalStep<T>(file: seq<Cell<T>>)
    requires file != [] && RunTotal(FillRuns(file[..|file| - 1])) == FillCount(file[..|file| - 1])
    ensures RunTotal(FillRuns(file)) == FillCount(file)
  {
    var r, s := FillRuns(file[..|file| - 1]), FillRuns(file);
    if !file[|file| - 1].Got? {
      assert s[..|s| - 1] == if |s| == |r| then r[..|r| - 1] else r;
    }
  }

  lemma {:induction false} MaximalStep<T>(file: seq<Cell<T>>, r: seq<Run>)
    requires file != [] && AreMaximalFills(r, file[..|file| - 1])
    ensures AreMaximalFills(if file[|file| - 1].Got? then r else ExtendRuns(r, |file| - 1, 1), file)
  {
    var k := |file| - 1;
    var init := file[..k];
    assert forall i :: 0 <= i < k ==> init[i] == file[i];
    if file[k].Got? {
    } else if r != [] && r[|r| - 1].at + r[|r| - 1].count == k {
      MaximalGrow(file, r, r[..|r| - 1] + [Run(r[|r| - 1].at, r[|r| - 1].count + 1)]);
    } else {
      MaximalNew(file, r, r + [Run(k, 1)]);
    }
  }

  lemma {:induction false} MaximalGrow<T>(file: seq<Cell<T>>, r: seq<Run>, s: seq<Run>)
    requires file != [] && !file[|file| - 1].Got?
    requires AreMaximalFills(r, file[..|file| - 1])
    requires r != [] && r[|r| - 1].at + r[|r| - 1].count == |file| - 1
    requires s == r[..|r| - 1] + [Run(r[|r| - 1].at, r[|r| - 1].count + 1)]
    ensures AreMaximalFills(s, file)
  {
    var k, m := |file| - 1, |r| - 1;
    assert forall j, i :: 0 <= j <= m && i < k ==> Covers(s[j], i) == Covers(r[j], i);
    assert Covers(s[m], k);
    forall i | 0 <= i < |file| && !file[i].Got?
      ensures exists j :: 0 <= j < |s| && Covers(s[j], i)
    {
      if i < k {
        assert !file[..k][i].Got?;
        var j :| 0 <= j < |r| && Covers(r[j], i);
        assert Covers(s[j], i);
      }
    }
  }

  lemma {:induction false} MaximalNew<T>(file: seq<Cell<T>>, r: seq<Run>, s: seq<Run>)
    requires file != [] && !file[|file| - 1].Got?
    requires AreMaximalFills(r, file[..|file| - 1])
    requires r == [] || r[|r| - 1].at + r[|r| - 1].count < |file| - 1
    requires s == r + [Run(|file| - 1, 1)]
    ensures AreMaximalFills(s, file)
  {
    var k := |file| - 1;
    assert forall i :: 0 <= i < k ==> file[..k][i] == file[i];
    assert forall j :: 0 <= j < |r| ==> s[j] == r[j];
    assert Covers(s[|r|], k);
    forall i | 0 <= i < |file| && !file[i].Got?
      ensures exists j :: 0 <= j < |s| && Covers(s[j], i)
    {
      if i < k {
        var j :| 0 <= j < |r| && Covers(r[j], i);
        assert Covers(s[j], i);
      }
    }
  }

  lemma {:induction false} FillsAfterSamples<T>(file: seq<Cell<T>>, data: seq<T>, pos: int)
    ensures FillRuns(file + Gots(data, pos)) == FillRuns(file)
    ensures FillCount(file + Gots(data, pos)) == FillCount(file)
    decreases |data|
  {
    if data == [] {
      assert file + Gots(data, pos) == file;
    } else {
      var k := |data| - 1;
      FillsAfterSamples(file, data[..k], pos);
      var f := file + Gots(data, pos);
      assert f[..|f| - 1] == file + Gots(data[..k], pos);
    }
  }

  lemma {:induction false} FillsAfterZeros<T>(file: seq<Cell<T>>, zeros: seq<Cell<T>>)
    requires zeros != [] && forall i :: 0 <= i < |zeros| ==> !zeros[i].Got?
    ensures FillRuns(file + zeros) == ExtendRuns(FillRuns(file), |file|, |zeros|)
    ensures FillCount(file + zeros) == FillCount(file) + |zeros|
    decreases |zeros|
  {
    hide ExtendRuns;
    var k := |zeros| - 1;
    var f := file + zeros;
    assert f[..|f| - 1] == file + zeros[..k];
    if k == 0 {
      assert f[..|f| - 1] == file;
    } else {
      FillsAfterZeros(file, zeros[..k]);
      ExtendTwice(FillRuns(file), |file|, k);
    }
  }

  lemma {:induction false} ExtendTwice(runs: seq<Run>, at: nat, k: nat)
    requires 0 < k
    ensures ExtendRuns(ExtendRuns(runs, at, k), at + k, 1) == ExtendRuns(runs, at, k + 1)
  {
    var e := ExtendRuns(runs, at, k);
    var m := |e| - 1;
    assert e[m].at + e[m].count == at + k;
    assert ExtendRuns(e, at + k, 1) == e[..m] + [Run(e[m].at, e[m].count + 1)];
    assert e[..m] == if m == |runs| then runs else runs[..m];
  }

  // ---------- stream positions and file indices ----------

  ghost predicate BreaksOk(breaks: seq<Break>, total: nat, end: int) {
    && (forall i, j :: 0 <= i < j < |breaks| ==>
          breaks[i].at <= breaks[j].at && breaks[i].zeros < breaks[j].zeros)
    && (forall i :: 0 <= i < |breaks| ==> breaks[i].at <= end && 0 < breaks[i].zeros)
    && total == (if breaks == [] then 0 else breaks[|breaks| - 1].zeros)
  }

  ghost predicate InOrder(breaks: seq<Break>) {
    forall i, j :: 0 <= i < j < |breaks| ==> breaks[i].at <= breaks[j].at
  }

  /** `bisect_right` over the break positions: how many are at or before `p`. */
  function BisectRight(breaks: seq<Break>, p: int): (i: nat)
    ensures i <= |breaks|
    ensures forall j :: i <= j < |breaks| ==> p < breaks[j].at
    ensures InOrder(breaks) ==> forall j :: 0 <= j < i ==> breaks[j].at <= p
  {
    if breaks == [] then 0
    else if breaks[|breaks| - 1].at <= p then |breaks|
    else BisectRight(breaks[..|breaks| - 1], p)
  }

  function ZerosBefore(breaks: seq<Break>, p: int): nat {
    var i := BisectRight(breaks, p);
    if i == 0 then 0 else breaks[i - 1].zeros
  }

  lemma {:induction false} BisectMonotone(breaks: seq<Break>, p: int, q: int)
    requires p <= q
    ensures BisectRight(breaks, p) <= BisectRight(breaks, q)
  {
    if breaks != [] {
      BisectMonotone(breaks[..|breaks| - 1], p, q);
    }
  }

  lemma {:induction false} ZerosMonotone(breaks: seq<Break>, total: nat, end: int, p: int, q: int)
    requires BreaksOk(breaks, total, end) && p <= q
    ensures ZerosBefore(breaks, p) <= ZerosBefore(breaks, q) <= total
    ensures end <= q ==> ZerosBefore(breaks, q) == total
  {
    BisectMonotone(breaks, p, q);
  }

  /** Every stream position of the file is at its index, and nowhere else. */
  ghost predicate PositionLaw<T>(file: seq<Cell<T>>, breaks: seq<Break>, start: int, end: int) {
    && (forall p :: start <= p < end ==>
          var i := p - start + ZerosBefore(breaks, p);
          0 <= i < |file| && !file[i].Lost? && file[i].pos == p)
    && (forall i :: 0 <= i < |file| && !file[i].Lost? ==>
          start <= file[i].pos < end
          && i == file[i].pos - start + ZerosBefore(breaks, file[i].pos))
  }

  lemma {:induction false} AppendPositions<T>(file: seq<Cell<T>>, cells: seq<Cell<T>>, breaks: seq<Break>, total: nat,
                           start: int, end: int)
    requires start <= end && BreaksOk(breaks, total, end) && PositionLaw(file, breaks, start, end)
    requires |file| == end - start + total
    requires forall i :: 0 <= i < |cells| ==> !cells[i].Lost? && cells[i].pos == end + i
    ensures PositionLaw(file + cells, breaks, start, end + |cells|)
    ensures BreaksOk(breaks, total, end + |cells|)
  {
    var f := file + cells;
    forall p | start <= p < end + |cells|
      ensures var i := p - start + ZerosBefore(breaks, p);
              0 <= i < |f| && !f[i].Lost? && f[i].pos == p
    {
      if end <= p {
        ZerosMonotone(breaks, total, end, p, p);
        assert f[p - start + total] == cells[p - end];
      }
    }
    forall i | 0 <= i < |f| && !f[i].Lost?
      ensures start <= f[i].pos < end + |cells|
      ensures i == f[i].pos - start + ZerosBefore(breaks, f[i].pos)
    {
      if |file| <= i {
        assert f[i] == cells[i - |file|];
        ZerosMonotone(breaks, total, end, f[i].pos, f[i].pos);
      }
    }
  }

  lemma {:induction false} AppendBreak<T>(file: seq<Cell<T>>, k: nat, breaks: seq<Break>, total: nat, start: int,
                                          end: int)
    requires start <= end && BreaksOk(breaks, total, end) && PositionLaw(file, breaks, start, end)
    requires 0 < k
    ensures BreaksOk(breaks + [Break(end, total + k)], total + k, end)
    ensures PositionLaw(file + Losts(k), breaks + [Break(end, total + k)], start, end)
  {
    var b := breaks + [Break(end, total + k)];
    BreakOutOfSight(breaks, Break(end, total + k));
    hide PositionLaw, ZerosBefore;
    LossesKeepPositions(file, k, breaks, b, start, end);
  }

  lemma {:induction false} LossesKeepPositions<T>(file: seq<Cell<T>>, k: nat, breaks: seq<Break>, b: seq<Break>,
                               start: int, end: int)
    requires forall p :: p < end ==> ZerosBefore(b, p) == ZerosBefore(breaks, p)
    requires PositionLaw(file, breaks, start, end)
    ensures PositionLaw(file + Losts(k), b, start, end)
  {
    var f := file + Losts(k);
    forall i | 0 <= i < |f| && !f[i].Lost?
      ensures start <= f[i].pos < end && i == f[i].pos - start + ZerosBefore(b, f[i].pos)
    {
      assert f[i] == file[i];
    }
  }

  lemma {:induction false} BreakOutOfSight(breaks: seq<Break>, b: Break)
    ensures forall p :: p < b.at ==> ZerosBefore(breaks + [b], p) == ZerosBefore(breaks, p)
  {
    assert (breaks + [b])[..|breaks|] == breaks;
    assert forall p :: p < b.at ==> BisectRight(breaks + [b], p) == BisectRight(breaks, p);
  }

  /** A break list as it grows: in order of position, each with more zeros than the last. */
  ghost predicate Growing(breaks: seq<Break>) {
    && InOrder(breaks)
    && (forall i, j :: 0 <= i < j < |breaks| ==> breaks[i].zeros < breaks[j].zeros)
    && (forall i :: 0 <= i < |breaks| ==> 0 < breaks[i].zeros)
  }

  /** What feeding does to a break list: it adds breaks at or after position `from`. */
  ghost predicate GrownFrom(before: seq<Break>, after: seq<Break>, from: int) {
    before <= after && forall i :: |before| <= i < |after| ==> from <= after[i].at
  }

  lemma {:induction false} NotGrown(breaks: seq<Break>, from: int)
    ensures GrownFrom(breaks, breaks, from)
    ensures forall zeros :: GrownFrom(breaks, breaks + [Break(from, zeros)], from)
  {
  }

  lemma {:induction false} GrownTwice(a: seq<Break>, b: seq<Break>, c: seq<Break>, from: int, later: int)
    requires GrownFrom(a, b, from) && GrownFrom(b, c, later) && from <= later
    ensures GrownFrom(a, c, from)
  {
    forall i | |a| <= i < |c|
      ensures from <= c[i].at
    {
      if i < |b| {
        assert c[i] == b[i];
      }
    }
  }

  lemma {:induction false} BisectIs(breaks: seq<Break>, p: int, i: nat)
    requires InOrder(breaks) && i <= |breaks|
    requires forall j :: 0 <= j < i ==> breaks[j].at <= p
    requires forall j :: i <= j < |breaks| ==> p < breaks[j].at
    ensures BisectRight(breaks, p) == i
  {
    var b := BisectRight(breaks, p);
    assert b < |breaks| ==> p < breaks[b].at;
    assert i < |breaks| ==> p < breaks[i].at;
  }

  /** Later breaks never take zeros away, and leave a position as it was exactly when none
      of them is at or before it. */
  lemma {:induction false} ZerosStayIff(before: seq<Break>, after: seq<Break>, p: int)
    requires before <= after && Growing(after)
    ensures ZerosBefore(before, p) <= ZerosBefore(after, p)
    ensures ZerosBefore(before, p) == ZerosBefore(after, p)
            <==> forall i :: |before| <= i < |after| ==> p < after[i].at
  {
    hide BisectRight;
    var b := BisectRight(after, p);
    if b <= |before| {
      BisectIs(before, p, b);
    } else {
      BisectIs(before, p, |before|);
      assert after[b - 1].at <= p && |before| <= b - 1 < |after|;
    }
  }

  // ---------- the file's books ----------

  /** The counters a run keeps about its file. */
  datatype Book = Book(written: nat, gaps: seq<Run>, lost: nat, breaks: seq<Break>, zerosTotal: nat)

  /** The counters agree with the file, which is `full` cut off at `n` cells and starts
      at stream position `start`; `cursor` is the position after `full`. */
  ghost predicate BookOk<T>(b: Book, full: seq<Cell<T>>, n: nat, start: int, cursor: int) {
    var file := Cap(full, n);
    var end := start + b.written - b.zerosTotal;
    && b.written == |file|
    && b.gaps == FillRuns(file)
    && b.lost == FillCount(file)
    && b.zerosTotal <= b.lost
    && start <= end
    && BreaksOk(b.breaks, b.zerosTotal, end)
    && PositionLaw(file, b.breaks, start, end)
    && (|full| <= n ==> end == cursor)
  }

  lemma {:induction false} EmptyBook<T>(n: nat, start: int)
    ensures BookOk<T>(Book(0, [], 0, [], 0), [], n, start, start)
  {
  }

  /** A file with nothing filled in has no gaps and no breaks. */
  lemma {:induction false} NoFills<T>(b: Book, full: seq<Cell<T>>, n: nat, start: int, cursor: int)
    requires BookOk(b, full, n, start, cursor) && b.lost == 0
    ensures b.gaps == [] && b.breaks == [] && b.zerosTotal == 0
    ensures forall i :: 0 <= i < |Cap(full, n)| ==> Cap(full, n)[i].Got?
  {
    var file := Cap(full, n);
    FillRunsAreMaximal(file);
    if b.gaps != [] {
      TotalAtLeastLast(b.gaps);
    }
  }

  lemma {:induction false} TotalAtLeastLast(runs: seq<Run>)
    requires runs != []
    ensures runs[|runs| - 1].count <= RunTotal(runs)
  {
  }

  function AfterSamples(b: Book, k: nat): Book {
    b.(written := b.written + k)
  }

  function AfterSkips(b: Book, k: nat): Book {
    if k == 0 then b
    else b.(written := b.written + k, gaps := ExtendRuns(b.gaps, b.written, k), lost := b.lost + k)
  }

  function AfterLosses(b: Book, k: nat, at: int): Book {
    if k == 0 then b
    else AfterSkips(b, k).(zerosTotal := b.zerosTotal + k, breaks := b.breaks + [Break(at, b.zerosTotal + k)])
  }

  lemma {:induction false} FullFile<T>(full: seq<Cell<T>>, more: seq<Cell<T>>, n: nat)
    ensures var k := MinInt(|more|, n - |Cap(full, n)|);
      0 <= k && Cap(full + more, n) == Cap(full, n) + more[..k] && (0 < k ==> |full| < n)
      && (k == 0 ==> Cap(full + more, n) == Cap(full, n))
      && |Cap(full, n)| == MinInt(|full|, n)
  {
  }

  lemma {:induction false} SamplesKeepBook<T>(b: Book, full: seq<Cell<T>>, n: nat, start: int, cursor: int,
                                              data: seq<T>)
    requires BookOk(b, full, n, start, cursor)
    ensures var k := MinInt(|data|, n - b.written);
      0 <= k && BookOk(AfterSamples(b, k), full + Gots(data, cursor), n, start, cursor + |data|)
      && Cap(full + Gots(data, cursor), n) == Cap(full, n) + Gots(data[..k], cursor)
      && (k == 0 ==> Cap(full + Gots(data, cursor), n) == Cap(full, n))
  {
    hide FillRuns, FillCount, PositionLaw, ZerosBefore, BreaksOk, Cap, ExtendRuns;
    FullFile(full, Gots(data, cursor), n);
    var k := MinInt(|data|, n - b.written);
    assert Gots(data, cursor)[..k] == Gots(data[..k], cursor);
    if 0 < k {
      FillsAfterSamples(Cap(full, n), data[..k], cursor);
      AppendPositions(Cap(full, n), Gots(data[..k], cursor), b.breaks, b.zerosTotal, start, cursor);
    }
  }

  lemma {:induction false} SkipsKeepBook<T>(b: Book, full: seq<Cell<T>>, n: nat, start: int, cursor: int, count: nat)
    requires BookOk(b, full, n, start, cursor)
    ensures var k := MinInt(count, n - b.written);
      0 <= k && BookOk(AfterSkips(b, k), full + Skips(count, cursor), n, start, cursor + count)
      && Cap(full + Skips(count, cursor), n) == Cap(full, n) + Skips(k, cursor)
      && (k == 0 ==> Cap(full + Skips(count, cursor), n) == Cap(full, n))
  {
    hide FillRuns, FillCount, PositionLaw, ZerosBefore, BreaksOk, Cap, ExtendRuns;
    FullFile(full, Skips(count, cursor), n);
    var k := MinInt(count, n - b.written);
    assert Skips<T>(count, cursor)[..k] == Skips(k, cursor);
    if 0 < k {
      FillsAfterZeros(Cap(full, n), Skips(k, cursor));
      AppendPositions(Cap(full, n), Skips(k, cursor), b.breaks, b.zerosTotal, start, cursor);
    }
  }

  lemma {:induction false} LossesKeepBook<T>(b: Book, full: seq<Cell<T>>, n: nat, start: int, cursor: int, count: nat)
    requires BookOk(b, full, n, start, cursor)
    ensures var k := MinInt(count, n - b.written);
      0 <= k && BookOk(AfterLosses(b, k, cursor), full + Losts(count), n, start, cursor)
      && Cap(full + Losts<T>(count), n) == Cap(full, n) + Losts<T>(k)
      && (k == 0 ==> Cap(full + Losts<T>(count), n) == Cap(full, n))
  {
    hide FillRuns, FillCount, PositionLaw, ZerosBefore, BreaksOk, Cap, ExtendRuns;
    FullFile(full, Losts(count), n);
    var k := MinInt(count, n - b.written);
    assert Losts<T>(count)[..k] == Losts(k);
    if 0 < k {
      FillsAfterZeros(Cap(full, n), Losts(k));
      AppendBreak(Cap(full, n), k, b.breaks, b.zerosTotal, start, cursor);
    }
  }

  /** The operations of one feed carry exactly the cells added since its start. */
  ghost predicate Carries<T>(ops: seq<Op<T>>, file: seq<Cell<T>>, mark: nat) {
    mark <= |file| && Play(ops) == Erase(file[mark..])
  }

  lemma {:induction false} CarryIq<T>(ops: seq<Op<T>>, data: seq<T>, pos: int, file: seq<Cell<T>>, mark: nat)
    requires Carries(ops, file, mark)
    ensures Carries(ops + [Op.Iq(data)], file + Gots(data, pos), mark)
  {
    PlaySnoc(ops, Op.Iq(data));
    assert (file + Gots(data, pos))[mark..] == file[mark..] + Gots(data, pos);
  }

  lemma {:induction false} CarryZeros<T>(ops: seq<Op<T>>, zeros: seq<Cell<T>>, file: seq<Cell<T>>, mark: nat)
    requires Carries(ops, file, mark)
    requires forall i :: 0 <= i < |zeros| ==> !zeros[i].Got?
    ensures Carries(ops + [Op.Zeros(|zeros|)], file + zeros, mark)
  {
    PlaySnoc(ops, Op.Zeros(|zeros|));
    assert (file + zeros)[mark..] == file[mark..] + zeros;
  }
}
