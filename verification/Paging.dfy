/**
 Browsing the fleet's captures (`fleet/app.py`, the capture list): each request parses the
 cursor text of the reply before, asks every sensor for its next captures from there, merges
 one page and formats the cursor for the next request.
 */
module Paging {
  import opened Cursor
  import opened Fleet
  import opened Wrappers

  /** The page size a request gets. */
  function Clamp(limit: int): (n: nat)
    ensures 1 <= n <= 500
    ensures n <= limit || n == 1
    ensures limit <= n || n == 500
  {
    if limit < 1 then 1 else if limit > 500 then 500 else limit
  }

  /** How far each sensor was shown; a sensor that the cursor does not name was not. */
  function OffsetsFor(ids: seq<string>, cursor: map<string, nat>): (r: seq<nat>)
    ensures |r| == |ids|
    ensures forall i :: 0 <= i < |ids| ==> r[i] == if ids[i] in cursor then cursor[ids[i]] else 0
  {
    seq(|ids|, i requires 0 <= i < |ids| => if ids[i] in cursor then cursor[ids[i]] else 0)
  }

  /** The cursor's entries, sensor by sensor. */
  function Entries(ids: seq<string>, offsets: seq<nat>): (r: seq<(string, nat)>)
    requires |ids| == |offsets|
    ensures |r| == |ids| && forall i :: 0 <= i < |ids| ==> r[i] == (ids[i], offsets[i])
  {
    seq(|ids|, i requires 0 <= i < |ids| => (ids[i], offsets[i]))
  }

  /** Sensor ids as the registry gives them. */
  ghost predicate IdsOk(ids: seq<string>) {
    && (forall i :: 0 <= i < |ids| ==> ids[i] != "" && NoComma(ids[i]))
    && (forall i, j :: 0 <= i < j < |ids| ==> ids[i] != ids[j])
  }

  // ---------- the cursor between two requests ----------

  lemma {:induction false} OffsetsOfEntries(ids: seq<string>, offsets: seq<nat>, i: nat)
    requires |ids| == |offsets| && i < |ids| && forall j, k :: 0 <= j < k < |ids| ==> ids[j] != ids[k]
    ensures var m := Offsets(Entries(ids, offsets)); ids[i] in m && m[ids[i]] == offsets[i]
  {
    var n := |ids| - 1;
    assert Entries(ids, offsets)[..n] == Entries(ids[..n], offsets[..n]);
    if i < n {
      OffsetsOfEntries(ids[..n], offsets[..n], i);
    }
  }

  /** The next request takes up exactly where the cursor's text says. */
  lemma {:induction false} CursorCarries(ids: seq<string>, offsets: seq<nat>)
    requires |ids| == |offsets| && IdsOk(ids)
    ensures OffsetsFor(ids, ParseCursor(FormatCursor(Entries(ids, offsets)))) == offsets
  {
    hide ParseCursor, FormatCursor, Offsets;
    var entries := Entries(ids, offsets);
    CursorRoundTrip(entries);
    forall i | 0 <= i < |ids|
      ensures ids[i] in Offsets(entries) && Offsets(entries)[ids[i]] == offsets[i]
    {
      OffsetsOfEntries(ids, offsets, i);
    }
  }

  // ---------- one request ----------

  /** The merge of what was fetched is the full merge's page, with its heads as offsets. */
  lemma {:induction false} PageOfFetched<T>(lists: seq<seq<Entry<T>>>, offsets: seq<nat>, limit: nat,
                                            out: seq<Shown<T>>, cursor: seq<nat>)
    requires HeadsOk(lists, offsets)
    requires HeadsOk(Fetched(lists, offsets, limit), Copies<nat>(|lists|, 0))
    requires out == Merge(Fetched(lists, offsets, limit), Copies<nat>(|lists|, 0), limit).shown
    requires |cursor| == |lists| && forall i :: 0 <= i < |lists| ==> cursor[i] == offsets[i] + |Of(out, i)|
    ensures Merge(lists, offsets, limit) == Page(out, cursor)
  {
    hide Fetched, Merge, Of;
    var fetched, zeros := Fetched(lists, offsets, limit), Copies<nat>(|lists|, 0);
    FetchingAPageIsEnough(lists, offsets, limit, zeros, limit);
    assert Sum(offsets, zeros) == offsets;
    var p := Merge(fetched, zeros, limit);
    forall i: nat | i < |lists|
      ensures |Of(out, i)| == p.heads[i]
    {
      ConsumesPrefix(fetched, zeros, limit, i);
    }
    assert Sum(offsets, p.heads) == cursor;
  }

  /** Answers a request: up to `limit` captures, and the cursor for the next one. */
  method Request<T>(ids: seq<string>, lists: seq<seq<Entry<T>>>, raw: string, limit: int)
    returns (shown: seq<Shown<T>>, text: string)
    requires |ids| == |lists|
    ensures var offsets := OffsetsFor(ids, ParseCursor(raw));
      HeadsOk(lists, offsets) ==>
        var page := Merge(lists, offsets, Clamp(limit));
        shown == page.shown && text == FormatCursor(Entries(ids, page.heads))
  {
    hide ParseCursor, FormatCursor, Fetched, Merge, Of;
    var offsets := OffsetsFor(ids, ParseCursor(raw));
    var fetched := Fetched(lists, offsets, Clamp(limit));
    var cursor;
    shown, cursor := MergePage(fetched, offsets, Clamp(limit));
    text := FormatCursor(Entries(ids, cursor));
    if HeadsOk(lists, offsets) {
      PageOfFetched(lists, offsets, Clamp(limit), shown, cursor);
    }
  }

  // ---------- all requests ----------

  function Total(limits: seq<int>): nat {
    if limits == [] then 0 else Total(limits[..|limits| - 1]) + Clamp(limits[|limits| - 1])
  }

  /** No capture is skipped or shown twice, whatever the page sizes: the pages of successive
      requests, each with the text of the reply before, are one merge of the full lists. */
  method Browse<T>(ids: seq<string>, lists: seq<seq<Entry<T>>>, limits: seq<int>)
    returns (pages: seq<Shown<T>>, text: string)
    requires |ids| == |lists| && IdsOk(ids)
    ensures HeadsOk(lists, Copies<nat>(|lists|, 0))
    ensures pages == Merge(lists, Copies<nat>(|lists|, 0), Total(limits)).shown
    ensures OffsetsFor(ids, ParseCursor(text)) == Merge(lists, Copies<nat>(|lists|, 0), Total(limits)).heads
  {
    hide ParseCursor, FormatCursor, Merge, IdsOk;
    ghost var zeros := Copies<nat>(|lists|, 0);
    pages, text := [], "";
    NothingShown(ids, lists);
    for k := 0 to |limits|
      invariant pages == Merge(lists, zeros, Total(limits[..k])).shown
      invariant OffsetsFor(ids, ParseCursor(text)) == Merge(lists, zeros, Total(limits[..k])).heads
    {
      ghost var so := Merge(lists, zeros, Total(limits[..k]));
      var shown;
      shown, text := Request(ids, lists, text, limits[k]);
      ghost var page := Merge(lists, so.heads, Clamp(limits[k]));
      PagesConcatenate(lists, zeros, Total(limits[..k]), Clamp(limits[k]));
      CursorCarries(ids, page.heads);
      assert limits[..k + 1][..k] == limits[..k];
      pages := pages + shown;
    }
    assert limits[..|limits|] == limits;
  }

  lemma {:induction false} NothingShown<T>(ids: seq<string>, lists: seq<seq<Entry<T>>>)
    requires |ids| == |lists|
    ensures HeadsOk(lists, Copies<nat>(|lists|, 0))
    ensures Merge(lists, Copies<nat>(|lists|, 0), 0) == Page([], Copies<nat>(|lists|, 0))
    ensures OffsetsFor(ids, ParseCursor("")) == Copies<nat>(|lists|, 0)
  {
    hide ParseCursor;
    EmptyCursor();
  }

  /** Once a page comes up short, every sensor's whole list has been shown, in its own order. */
  lemma {:induction false} ShortPageIsTheEnd<T>(lists: seq<seq<Entry<T>>>, total: nat, i: nat)
    requires i < |lists| && HeadsOk(lists, Copies<nat>(|lists|, 0))
    requires |Merge(lists, Copies<nat>(|lists|, 0), total).shown| < total
    ensures Of(Merge(lists, Copies<nat>(|lists|, 0), total).shown, i) == lists[i]
  {
    hide Merge, Of;
    var zeros := Copies<nat>(|lists|, 0);
    PageIsFull(lists, zeros, total);
    ConsumesPrefix(lists, zeros, total, i);
    assert lists[i][0..|lists[i]|] == lists[i];
  }
}
