/**
 Fleet paging (`fleet/captures.py`): the sensors' capture lists, each newest first, merged
 page by page, and the cursor that says how far each list was shown.
 */
module Fleet {
  import opened Wrappers

  /** A capture and its start time; `None` when the time cannot be read, which sorts last. */
  datatype Entry<T> = Entry(item: T, start: Option<real>)

  /** A shown capture and the sensor (by place in the list) that it came from. */
  datatype Shown<T> = Shown(sensor: nat, entry: Entry<T>)

  /** What a page shows, and how far each list was used after it. */
  datatype Page<T> = Page(shown: seq<Shown<T>>, heads: seq<nat>)

  predicate Newer(a: Option<real>, b: Option<real>) {
    a.Some? && (b.None? || a.value > b.value)
  }

  predicate HeadsOk<T>(lists: seq<seq<Entry<T>>>, heads: seq<nat>) {
    |heads| == |lists| && forall i :: 0 <= i < |lists| ==> heads[i] <= |lists[i]|
  }

  /** The first sensor below `n` whose next capture is newest. */
  function Best<T>(lists: seq<seq<Entry<T>>>, heads: seq<nat>, n: nat): (b: Option<nat>)
    requires HeadsOk(lists, heads) && n <= |lists|
    ensures b.Some? ==> b.value < n && heads[b.value] < |lists[b.value]|
  {
    if n == 0 then None
    else
      var b := Best(lists, heads, n - 1);
      if heads[n - 1] == |lists[n - 1]| then b
      else if b.None? then Some(n - 1)
      else if Newer(lists[n - 1][heads[n - 1]].start, lists[b.value][heads[b.value]].start) then Some(n - 1)
      else b
  }

  function Step<T>(lists: seq<seq<Entry<T>>>, heads: seq<nat>, b: nat): (r: seq<nat>)
    requires HeadsOk(lists, heads) && b < |lists| && heads[b] < |lists[b]|
    ensures HeadsOk(lists, r)
  {
    heads[b := heads[b] + 1]
  }

  function Next<T>(lists: seq<seq<Entry<T>>>, heads: seq<nat>, b: nat): Shown<T>
    requires HeadsOk(lists, heads) && b < |lists| && heads[b] < |lists[b]|
  {
    Shown(b, lists[b][heads[b]])
  }

  /** A page of up to `limit` captures from given heads. */
  function Merge<T>(lists: seq<seq<Entry<T>>>, heads: seq<nat>, limit: nat): (r: Page<T>)
    requires HeadsOk(lists, heads)
    ensures HeadsOk(lists, r.heads)
    decreases limit
  {
    var b := Best(lists, heads, |lists|);
    if limit == 0 || b.None? then Page([], heads)
    else
      var rest := Merge(lists, Step(lists, heads, b.value), limit - 1);
      Page([Next(lists, heads, b.value)] + rest.shown, rest.heads)
  }

  // ---------- a page consumes prefixes ----------

  /** The captures shown of one sensor, in order. */
  function Of<T>(shown: seq<Shown<T>>, i: nat): seq<Entry<T>> {
    if shown == [] then []
    else (if shown[0].sensor == i then [shown[0].entry] else []) + Of(shown[1..], i)
  }

  lemma {:induction false} OfCons<T>(x: Shown<T>, shown: seq<Shown<T>>, i: nat)
    ensures Of([x] + shown, i) == (if x.sensor == i then [x.entry] else []) + Of(shown, i)
  {
    assert ([x] + shown)[1..] == shown;
  }

  lemma {:induction false} SliceCons<T>(s: seq<T>, a: nat, b: nat)
    requires a < b <= |s|
    ensures s[a..b] == [s[a]] + s[a + 1..b]
  {
  }

  /** Each sensor's list is consumed in its own order, and its head counts exactly that. */
  lemma {:induction false} ConsumesPrefix<T>(lists: seq<seq<Entry<T>>>, heads: seq<nat>, limit: nat, i: nat)
    requires HeadsOk(lists, heads) && i < |lists|
    ensures var p := Merge(lists, heads, limit);
      heads[i] <= p.heads[i] <= |lists[i]| && Of(p.shown, i) == lists[i][heads[i]..p.heads[i]]
    decreases limit
  {
    hide Best, Of;
    var b := Best(lists, heads, |lists|);
    if limit == 0 || b.None? {
      OfNone<T>(i);
    } else {
      var rest := Merge(lists, Step(lists, heads, b.value), limit - 1);
      ConsumesPrefix(lists, Step(lists, heads, b.value), limit - 1, i);
      OfCons(Next(lists, heads, b.value), rest.shown, i);
      if b.value == i {
        SliceCons(lists[i], heads[i], rest.heads[i]);
      }
    }
  }

  lemma {:induction false} OfNone<T>(i: nat)
    ensures Of<T>([], i) == []
  {
  }

  /** Two pages show what one page of both sizes shows: nothing is skipped or repeated. */
  lemma {:induction false} PagesConcatenate<T>(lists: seq<seq<Entry<T>>>, heads: seq<nat>, a: nat, b: nat)
    requires HeadsOk(lists, heads)
    ensures var first := Merge(lists, heads, a);
      var second := Merge(lists, first.heads, b);
      Merge(lists, heads, a + b) == Page(first.shown + second.shown, second.heads)
    decreases a
  {
    hide Best;
    var best := Best(lists, heads, |lists|);
    var second := Merge(lists, Merge(lists, heads, a).heads, b);
    if a == 0 || best.None? {
      assert [] + second.shown == second.shown;
    } else {
      var next := Step(lists, heads, best.value);
      PagesConcatenate(lists, next, a - 1, b);
      var x := Next(lists, heads, best.value);
      var rest := Merge(lists, next, a - 1);
      assert ([x] + rest.shown) + second.shown == [x] + (rest.shown + second.shown);
    }
  }

  /** A page is full, or every list is used up. */
  lemma {:induction false} PageIsFull<T>(lists: seq<seq<Entry<T>>>, heads: seq<nat>, limit: nat)
    requires HeadsOk(lists, heads)
    ensures var p := Merge(lists, heads, limit);
      |p.shown| <= limit && (|p.shown| < limit ==> forall i :: 0 <= i < |lists| ==> p.heads[i] == |lists[i]|)
    decreases limit
  {
    hide Best;
    var b := Best(lists, heads, |lists|);
    if b.None? {
      NoneLeft(lists, heads, |lists|);
    } else if limit == 0 {
    } else {
      PageIsFull(lists, Step(lists, heads, b.value), limit - 1);
    }
  }

  lemma {:induction false} NoneLeft<T>(lists: seq<seq<Entry<T>>>, heads: seq<nat>, n: nat)
    requires HeadsOk(lists, heads) && n <= |lists| && Best(lists, heads, n).None?
    ensures forall i :: 0 <= i < n ==> heads[i] == |lists[i]|
  {
    if n == 0 {
    } else {
      NoneLeft(lists, heads, n - 1);
    }
  }

  // ---------- fetching only a page of each list ----------

  function Ahead(offset: nat, limit: nat, n: nat): nat {
    if offset + limit < n then offset + limit else n
  }

  /** A sensor's reply: at most `limit` captures from the offset, none from past the list. */
  function Reply<T>(list: seq<Entry<T>>, offset: nat, limit: nat): seq<Entry<T>> {
    if offset <= |list| then list[offset..Ahead(offset, limit, |list|)] else []
  }

  /** What the sensors return. */
  function Fetched<T>(lists: seq<seq<Entry<T>>>, offsets: seq<nat>, limit: nat): (r: seq<seq<Entry<T>>>)
    requires |offsets| == |lists|
    ensures |r| == |lists| && forall i :: 0 <= i < |lists| ==> r[i] == Reply(lists[i], offsets[i], limit)
  {
    seq(|lists|, i requires 0 <= i < |lists| => Reply(lists[i], offsets[i], limit))
  }

  function Sum(a: seq<nat>, b: seq<nat>): (r: seq<nat>)
    requires |a| == |b|
    ensures |r| == |a| && forall i :: 0 <= i < |a| ==> r[i] == a[i] + b[i]
  {
    seq(|a|, i requires 0 <= i < |a| => a[i] + b[i])
  }

  /** The next captures of two lists of lists are the same. */
  ghost predicate SameNext<T>(l: seq<seq<Entry<T>>>, h: seq<nat>, m: seq<seq<Entry<T>>>, g: seq<nat>) {
    && HeadsOk(l, h) && HeadsOk(m, g) && |l| == |m|
    && forall i :: 0 <= i < |l| ==>
         (h[i] < |l[i]| <==> g[i] < |m[i]|) && (h[i] < |l[i]| ==> l[i][h[i]] == m[i][g[i]])
  }

  lemma {:induction false} SameBest<T>(l: seq<seq<Entry<T>>>, h: seq<nat>, m: seq<seq<Entry<T>>>, g: seq<nat>, n: nat)
    requires SameNext(l, h, m, g) && n <= |l|
    ensures Best(l, h, n) == Best(m, g, n)
    decreases n
  {
    if n == 0 {
    } else {
      SameBest(l, h, m, g, n - 1);
    }
  }

  /** Below the page size, the fetched lists have what the full ones have. */
  lemma {:induction false} FetchedNext<T>(lists: seq<seq<Entry<T>>>, offsets: seq<nat>, limit: nat, h: seq<nat>)
    requires HeadsOk(lists, offsets) && HeadsOk(Fetched(lists, offsets, limit), h)
    requires forall i :: 0 <= i < |lists| ==> h[i] < limit
    ensures SameNext(Fetched(lists, offsets, limit), h, lists, Sum(offsets, h))
  {
  }

  lemma {:induction false} FetchedFits<T>(lists: seq<seq<Entry<T>>>, offsets: seq<nat>, limit: nat, h: seq<nat>)
    requires HeadsOk(lists, offsets) && HeadsOk(Fetched(lists, offsets, limit), h)
    ensures HeadsOk(lists, Sum(offsets, h))
  {
  }

  lemma {:induction false} StepMoves<T>(lists: seq<seq<Entry<T>>>, h: seq<nat>, b: nat)
    requires HeadsOk(lists, h) && b < |lists| && h[b] < |lists[b]|
    ensures var next := Step(lists, h, b); |next| == |h| && forall i :: 0 <= i < |h| ==> next[i] <= h[i] + 1
  {
  }

  lemma {:induction false} SumSteps<T>(lists: seq<seq<Entry<T>>>, fetched: seq<seq<Entry<T>>>, offsets: seq<nat>,
                                       h: seq<nat>, b: nat)
    requires HeadsOk(fetched, h) && |lists| == |fetched| == |offsets| && HeadsOk(lists, Sum(offsets, h))
    requires b < |lists| && h[b] < |fetched[b]| && offsets[b] + h[b] < |lists[b]|
    ensures Sum(offsets, Step(fetched, h, b)) == Step(lists, Sum(offsets, h), b)
  {
  }

  /** A page merged from the fetched captures is the page merged from the full lists. */
  lemma {:induction false} FetchingAPageIsEnough<T>(lists: seq<seq<Entry<T>>>, offsets: seq<nat>, limit: nat,
          h: seq<nat>, left: nat)
    requires HeadsOk(lists, offsets) && HeadsOk(Fetched(lists, offsets, limit), h)
    requires forall i :: 0 <= i < |lists| ==> h[i] + left <= limit
    ensures HeadsOk(lists, Sum(offsets, h))
    ensures var p := Merge(Fetched(lists, offsets, limit), h, left);
      Merge(lists, Sum(offsets, h), left) == Page(p.shown, Sum(offsets, p.heads))
    decreases left
  {
    hide Best, Fetched, Ahead, Reply, Step, Sum;
    var fetched := Fetched(lists, offsets, limit);
    FetchedFits(lists, offsets, limit, h);
    if left == 0 {
    } else {
      FetchedNext(lists, offsets, limit, h);
      SameBest(fetched, h, lists, Sum(offsets, h), |lists|);
      var b := Best(fetched, h, |lists|);
      if b.Some? {
        var next := Step(fetched, h, b.value);
        StepMoves(fetched, h, b.value);
        FetchingAPageIsEnough(lists, offsets, limit, next, left - 1);
        SumSteps(lists, fetched, offsets, h, b.value);
      }
    }
  }

  // ---------- newest first ----------

  /** No capture is behind an older one, and those of unknown time are last. */
  predicate NewestFirst<T>(list: seq<Entry<T>>) {
    forall i, j :: 0 <= i < j < |list| && list[j].start.Some? ==>
      list[i].start.Some? && list[j].start.value <= list[i].start.value
  }

  /** Nothing left in the lists is newer than `t`. */
  ghost predicate NoneNewer<T>(lists: seq<seq<Entry<T>>>, heads: seq<nat>, t: Option<real>)
    requires HeadsOk(lists, heads)
  {
    forall i, j :: 0 <= i < |lists| && heads[i] <= j < |lists[i]| ==> !Newer(lists[i][j].start, t)
  }

  lemma {:induction false} BestIsNewest<T>(lists: seq<seq<Entry<T>>>, heads: seq<nat>, n: nat, i: nat)
    requires HeadsOk(lists, heads) && i < n <= |lists| && heads[i] < |lists[i]|
    ensures Best(lists, heads, n).Some?
    ensures var b := Best(lists, heads, n).value; !Newer(lists[i][heads[i]].start, lists[b][heads[b]].start)
    decreases n
  {
    if i < n - 1 {
      BestIsNewest(lists, heads, n - 1, i);
    }
  }

  /** The next capture shown is the newest of the lists' first ones, and of those the one of the
      first sensor. */
  lemma {:induction false} BestIsFirst<T>(lists: seq<seq<Entry<T>>>, heads: seq<nat>, n: nat)
    requires HeadsOk(lists, heads) && n <= |lists|
    ensures Best(lists, heads, n) == None <==> forall i :: 0 <= i < n ==> heads[i] == |lists[i]|
    ensures Best(lists, heads, n).Some? ==>
      var b := Best(lists, heads, n).value;
      var t := lists[b][heads[b]].start;
      forall i :: 0 <= i < n && heads[i] < |lists[i]| && i != b ==>
        var u := lists[i][heads[i]].start;
        if u.None? then t.Some? || b < i
        else t.Some? && u.value <= t.value && (i < b ==> u.value < t.value)
  {
    if n == 0 {
    } else {
      BestIsFirst(lists, heads, n - 1);
    }
  }

  lemma {:induction false} NextIsNewest<T>(lists: seq<seq<Entry<T>>>, heads: seq<nat>, b: nat)
    requires HeadsOk(lists, heads) && Best(lists, heads, |lists|) == Some(b)
    requires forall i :: 0 <= i < |lists| ==> NewestFirst(lists[i])
    ensures NoneNewer(lists, heads, Next(lists, heads, b).entry.start)
  {
    hide Best;
    forall i, j | 0 <= i < |lists| && heads[i] <= j < |lists[i]|
      ensures !Newer(lists[i][j].start, Next(lists, heads, b).entry.start)
    {
      BestIsNewest(lists, heads, |lists|, i);
    }
  }

  /** When each list is newest first, so is the page: nothing shown later, and nothing left
      over, is newer than a capture shown. */
  lemma {:induction false} PageIsNewestFirst<T>(lists: seq<seq<Entry<T>>>, heads: seq<nat>, limit: nat)
    requires HeadsOk(lists, heads) && forall i :: 0 <= i < |lists| ==> NewestFirst(lists[i])
    ensures var p := Merge(lists, heads, limit);
      forall k :: 0 <= k < |p.shown| ==> NoneNewer(lists, p.heads, p.shown[k].entry.start)
    ensures var p := Merge(lists, heads, limit);
      forall k, l :: 0 <= k < l < |p.shown| && p.shown[l].entry.start.Some? ==>
        p.shown[k].entry.start.Some? && p.shown[l].entry.start.value <= p.shown[k].entry.start.value
    decreases limit
  {
    hide Best, NewestFirst, NoneNewer;
    var b := Best(lists, heads, |lists|);
    if limit == 0 || b.None? {
    } else {
      var x, next := Next(lists, heads, b.value), Step(lists, heads, b.value);
      var rest := Merge(lists, next, limit - 1);
      PageIsNewestFirst(lists, next, limit - 1);
      NextIsNewest(lists, heads, b.value);
      StepKeeps(lists, heads, b.value, x.entry.start);
      NoneNewerInPage(lists, next, limit - 1, x.entry.start);
    }
  }

  lemma {:induction false} StepKeeps<T>(lists: seq<seq<Entry<T>>>, heads: seq<nat>, b: nat, t: Option<real>)
    requires HeadsOk(lists, heads) && b < |lists| && heads[b] < |lists[b]| && NoneNewer(lists, heads, t)
    ensures NoneNewer(lists, Step(lists, heads, b), t)
    ensures !Newer(Next(lists, heads, b).entry.start, t)
  {
  }

  /** A page shows nothing newer than what its lists hold. */
  lemma {:induction false} NoneNewerInPage<T>(lists: seq<seq<Entry<T>>>, heads: seq<nat>, limit: nat, t: Option<real>)
    requires HeadsOk(lists, heads) && NoneNewer(lists, heads, t)
    ensures var p := Merge(lists, heads, limit);
      NoneNewer(lists, p.heads, t) && forall k :: 0 <= k < |p.shown| ==> !Newer(p.shown[k].entry.start, t)
    decreases limit
  {
    hide Best, NoneNewer;
    var b := Best(lists, heads, |lists|);
    if limit == 0 || b.None? {
    } else {
      StepKeeps(lists, heads, b.value, t);
      NoneNewerInPage(lists, Step(lists, heads, b.value), limit - 1, t);
    }
  }

  // ---------- the loop of the source ----------

  /** Up to `limit` captures, and each sensor's new offset. */
  method MergePage<T>(lists: seq<seq<Entry<T>>>, offsets: seq<nat>, limit: nat)
    returns (out: seq<Shown<T>>, cursor: seq<nat>)
    requires |offsets| == |lists|
    ensures HeadsOk(lists, Copies<nat>(|lists|, 0)) && out == Merge(lists, Copies<nat>(|lists|, 0), limit).shown
    ensures |cursor| == |lists| && forall i :: 0 <= i < |lists| ==> cursor[i] == offsets[i] + |Of(out, i)|
  {
    hide Best, Of;
    var heads := Copies<nat>(|lists|, 0);
    out := [];
    ghost var page := Merge(lists, heads, limit);
    ghost var rest := page;
    while |out| < limit
      invariant HeadsOk(lists, heads) && |out| <= limit
      invariant rest == Merge(lists, heads, limit - |out|)
      invariant page == Page(out + rest.shown, rest.heads)
      invariant |out| < limit || rest == Page([], heads)
      decreases limit - |out|
    {
      var best := FindBest(lists, heads);
      if best.None? {
        break;
      }
      ghost var was := rest;
      var x := Next(lists, heads, best.value);
      rest := Merge(lists, Step(lists, heads, best.value), limit - |out| - 1);
      assert was.shown == [x] + rest.shown;
      assert out + ([x] + rest.shown) == (out + [x]) + rest.shown;
      out := out + [x];
      heads := Step(lists, heads, best.value);
    }
    assert rest == Page([], heads) && out + [] == out;
    forall i | 0 <= i < |lists|
      ensures heads[i] == |Of(out, i)|
    {
      ConsumesPrefix(lists, Copies<nat>(|lists|, 0), limit, i);
    }
    cursor := Sum(offsets, heads);
  }

  method FindBest<T>(lists: seq<seq<Entry<T>>>, heads: seq<nat>) returns (best: Option<nat>)
    requires HeadsOk(lists, heads)
    ensures best == Best(lists, heads, |lists|)
  {
    best := None;
    for i := 0 to |lists|
      invariant best == Best(lists, heads, i)
    {
      if heads[i] < |lists[i]| {
        if best.None? {
          best := Some(i);
        } else if Newer(lists[i][heads[i]].start, lists[best.value][heads[best.value]].start) {
          best := Some(i);
        }
      }
    }
  }
}
