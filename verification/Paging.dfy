/** Keyset paging of `history` and `search`: no gap, no duplicate. */
module Paging {
  import opened Results
  import opened JsonValues
  import opened Tables
  import opened LogReads
  import opened Ordering
  import opened Agreement

  datatype Page<T, C> = Page(items: seq<T>, cursor: Option<C>)

  predicate IntLess(a: int, b: int) {
    a < b
  }

  lemma IntOrder()
    ensures StrictTotal(IntLess)
  {
  }

  function StoredFromRow(key: Key, r: int, row: Row, doc: Doc): StoredRevision {
    StoredRevision(key, r, RowKey(key, r), row.kind, row.schema, row.metaVersion, doc, row.digest, row.meta, row.at)
  }

  /** A head row has no kind column: it is handed up as a change. */
  function StoredFromHead(key: Key, h: Head): StoredRevision {
    StoredRevision(key, h.rev, h.rid, Change, h.schema, h.metaVersion, h.state, h.digest, h.meta, h.at)
  }

  // ------------------------------------------------------------------ history

  /** Decode each selected revision, in order; the first failure is the page's. */
  function HistoryItems(log: Log, enc: Encodings, key: Key, revs: seq<int>): Result<seq<StoredRevision>>
    requires ValidEncodings(enc)
  {
    if revs == [] then Ok([])
    else
      var before :- HistoryItems(log, enc, key, revs[..|revs| - 1]);
      var r := revs[|revs| - 1];
      var doc :- Decoded(log, enc, key, r);
      if RowKey(key, r) !in log then Err(NotFound)
      else Ok(before + [StoredFromRow(key, r, log[RowKey(key, r)], doc)])
  }

  function NextCursor<C>(page: seq<C>, limit: nat): Option<C> {
    if |page| == limit && page != [] then Some(page[|page| - 1]) else None
  }

  /** `select_history`: revisions after the cursor, at most `limit`. */
  ghost function HistoryRevs(log: Log, key: Key, after: int, limit: nat): seq<int> {
    IntOrder();
    PageAfter(Sorted(RevisionsOf(log, key), IntLess), Some(after), limit, IntLess)
  }

  ghost function HistoryPage(log: Log, enc: Encodings, key: Key, after: int, limit: int):
    Result<Page<StoredRevision, int>>
    requires ValidEncodings(enc)
  {
    if limit < 1 then Err(UsageError)
    else
      var revs := HistoryRevs(log, key, after, limit);
      var items :- HistoryItems(log, enc, key, revs);
      Ok(Page(items, NextCursor(revs, limit)))
  }

  /** Following the cursor until it is exhausted. */
  ghost function HistoryScan(log: Log, enc: Encodings, key: Key, after: int, limit: int): Result<seq<StoredRevision>>
    requires ValidEncodings(enc) && limit >= 1
    decreases Beyond(RevisionsOf(log, key), Some(after), IntLess)
  {
    var page :- HistoryPage(log, enc, key, after, limit);
    match page.cursor
    case None => Ok(page.items)
    case Some(c) =>
      CursorAdvances(log, key, after, limit);
      var rest :- HistoryScan(log, enc, key, c, limit);
      Ok(page.items + rest)
  }

  lemma CursorAdvances(log: Log, key: Key, after: int, limit: nat)
    requires limit >= 1 && NextCursor(HistoryRevs(log, key, after, limit), limit).Some?
    ensures Beyond(RevisionsOf(log, key), NextCursor(HistoryRevs(log, key, after, limit), limit), IntLess)
         < Beyond(RevisionsOf(log, key), Some(after), IntLess)
  {
    IntOrder();
    var all, revs := RevisionsOf(log, key), HistoryRevs(log, key, after, limit);
    AfterIsSorted(all, Some(after), IntLess);
    var c := revs[|revs| - 1];
    assert c in After(Sorted(all, IntLess), Some(after), IntLess);
    assert c in Beyond(all, Some(after), IntLess) && c !in Beyond(all, Some(c), IntLess);
  }

  function Interval(lo: int, hi: int): (s: set<int>)
    ensures forall x :: x in s <==> lo <= x < hi
    decreases hi - lo
  {
    if lo >= hi then {} else {lo} + Interval(lo + 1, hi)
  }

  lemma {:induction false} SortedInterval(lo: int, hi: int)
    requires lo <= hi && StrictTotal(IntLess)
    ensures |Sorted(Interval(lo, hi), IntLess)| == hi - lo
    ensures forall i :: 0 <= i < hi - lo ==> Sorted(Interval(lo, hi), IntLess)[i] == lo + i
    decreases hi - lo
  {
    hide StrictTotal, Increasing;
    if lo < hi {
      LeastIsFirst(Interval(lo, hi), lo, IntLess);
      assert Interval(lo, hi) - {lo} == Interval(lo + 1, hi);
      SortedInterval(lo + 1, hi);
    } else {
      assert Interval(lo, hi) == {};
      assert Sorted({}, IntLess) == [];
    }
  }

  /** The stored form of the committed revisions lo..hi-1. */
  function StoredSlice(hist: History, key: Key, lo: int, hi: int): seq<StoredRevision>
    requires 0 <= lo && hi <= |RevsOf(hist, key)|
    decreases hi - lo
  {
    if lo >= hi then []
    else StoredSlice(hist, key, lo, hi - 1) + [StoredOf(key, hi - 1, hist[key][hi - 1])]
  }

  function StoredOf(key: Key, r: int, rev: Revision): StoredRevision {
    StoredRevision(key, r, RowKey(key, r), rev.kind, rev.schema, rev.metaVersion, rev.doc, rev.digest, rev.meta, rev.at)
  }

  lemma {:induction false} SlicesConcatenate(hist: History, key: Key, lo: int, mid: int, hi: int)
    requires 0 <= lo <= mid <= hi <= |RevsOf(hist, key)|
    ensures StoredSlice(hist, key, lo, hi) == StoredSlice(hist, key, lo, mid) + StoredSlice(hist, key, mid, hi)
    decreases hi - mid
  {
    if mid < hi { SlicesConcatenate(hist, key, lo, mid, hi - 1); }
  }

  /** A committed revision is read back in full: document and every column. */
  lemma RowReadsBack(log: Log, hist: History, grid: Grid, enc: Encodings, key: Key, r: int)
    requires LogAgrees(log, hist, grid) && OnGrid(enc, grid) && ValidEncodings(enc)
    requires 0 <= r < |RevsOf(hist, key)|
    ensures Decoded(log, enc, key, r) == Ok(hist[key][r].doc)
    ensures RowKey(key, r) in log
    ensures StoredFromRow(key, r, log[RowKey(key, r)], hist[key][r].doc) == StoredOf(key, r, hist[key][r])
  {
    ReadsAgree(log, hist, grid, enc, key, r);
    hide Gridded, FullFold, Decoded;
    assert AggregateAgrees(log, key, hist[key], GridOf(grid, key.stream));
    assert RevisionAgrees(log, key, r, hist[key][r]);
  }

  lemma {:induction false} ItemsAreSlice(
      log: Log, hist: History, grid: Grid, enc: Encodings, key: Key, lo: int, revs: seq<int>)
    requires LogAgrees(log, hist, grid) && OnGrid(enc, grid) && ValidEncodings(enc)
    requires 0 <= lo && lo + |revs| <= |RevsOf(hist, key)|
    requires forall i :: 0 <= i < |revs| ==> revs[i] == lo + i
    ensures HistoryItems(log, enc, key, revs) == Ok(StoredSlice(hist, key, lo, lo + |revs|))
    decreases |revs|
  {
    hide LogAgrees, OnGrid, Decoded;
    if revs != [] {
      var r := revs[|revs| - 1];
      ItemsAreSlice(log, hist, grid, enc, key, lo, revs[..|revs| - 1]);
      RowReadsBack(log, hist, grid, enc, key, r);
    }
  }

  /** The first revision after a cursor, and the end of a page from there. */
  function SliceStart(n: nat, after: int): (lo: nat)
    ensures lo <= n
  {
    if after < 0 then 0 else if after + 1 <= n then after + 1 else n
  }

  function SliceEnd(n: nat, lo: nat, limit: nat): (hi: nat)
    requires lo <= n
    ensures lo <= hi <= n && hi - lo <= limit
  {
    if lo + limit <= n then lo + limit else n
  }

  /** On an agreeing log, a page is the next slice of committed revisions. */
  lemma HistoryPageIsSlice(log: Log, hist: History, grid: Grid, enc: Encodings, key: Key, after: int, limit: int)
    requires LogAgrees(log, hist, grid) && OnGrid(enc, grid) && ValidEncodings(enc) && limit >= 1
    ensures var n := |RevsOf(hist, key)|;
      var lo := SliceStart(n, after);
      var hi := SliceEnd(n, lo, limit);
      HistoryPage(log, enc, key, after, limit)
        == Ok(Page(StoredSlice(hist, key, lo, hi), if hi - lo == limit then Some(hi - 1) else None))
  {
    hide LogAgrees, OnGrid, HistoryRevs, HistoryItems, StoredSlice;
    var n := |RevsOf(hist, key)|;
    var lo := SliceStart(n, after);
    RevsOfPage(log, hist, grid, key, after, limit, lo, SliceEnd(n, lo, limit));
    ItemsAreSlice(log, hist, grid, enc, key, lo, HistoryRevs(log, key, after, limit));
  }

  lemma RevsOfPage(log: Log, hist: History, grid: Grid, key: Key, after: int, limit: nat, lo: nat, hi: nat)
    requires LogAgrees(log, hist, grid)
    requires lo == SliceStart(|RevsOf(hist, key)|, after) && hi == SliceEnd(|RevsOf(hist, key)|, lo, limit)
    ensures var revs := HistoryRevs(log, key, after, limit);
      |revs| == hi - lo && forall i :: 0 <= i < |revs| ==> revs[i] == lo + i
  {
    RevisionsAreInterval(log, hist, grid, key);
    IntOrder();
    hide LogAgrees, StrictTotal;
    PageOfInterval(|RevsOf(hist, key)|, after, limit, lo, hi);
  }

  lemma PageOfInterval(n: nat, after: int, limit: nat, lo: nat, hi: nat)
    requires StrictTotal(IntLess)
    requires lo == SliceStart(n, after) && hi == SliceEnd(n, lo, limit)
    ensures var revs := PageAfter(Sorted(Interval(0, n), IntLess), Some(after), limit, IntLess);
      |revs| == hi - lo && forall i :: 0 <= i < |revs| ==> revs[i] == lo + i
  {
    hide StrictTotal, Increasing;
    AfterIsSorted(Interval(0, n), Some(after), IntLess);
    BeyondInterval(n, after, lo);
    SortedInterval(lo, n);
    hide Interval, Sorted, After;
    assert |After(Sorted(Interval(0, n), IntLess), Some(after), IntLess)| == n - lo;
  }

  lemma BeyondInterval(n: nat, after: int, lo: int)
    requires lo == SliceStart(n, after)
    ensures Beyond(Interval(0, n), Some(after), IntLess) == Interval(lo, n)
  {
  }

  lemma RevisionsAreInterval(log: Log, hist: History, grid: Grid, key: Key)
    requires LogAgrees(log, hist, grid)
    ensures RevisionsOf(log, key) == Interval(0, |RevsOf(hist, key)|)
  {
    hide Gridded, FullFold;
    forall r ensures r in RevisionsOf(log, key) <==> r in Interval(0, |RevsOf(hist, key)|) {
      assert RowKey(key, r) in log <==> 0 <= RowKey(key, r).rev < |RevsOf(hist, key)|;
    }
  }

  /** For every limit, following the cursors from `after` returns every later
      committed revision once, in order, and stops. */
  lemma {:induction false} HistoryPagesConcatenate(
      log: Log, hist: History, grid: Grid, enc: Encodings, key: Key, after: int, limit: int)
    requires LogAgrees(log, hist, grid) && OnGrid(enc, grid) && ValidEncodings(enc) && limit >= 1
    ensures var n := |RevsOf(hist, key)|;
      HistoryScan(log, enc, key, after, limit) == Ok(StoredSlice(hist, key, SliceStart(n, after), n))
    decreases |RevsOf(hist, key)| - after
  {
    hide LogAgrees, OnGrid, HistoryPage;
    HistoryPageIsSlice(log, hist, grid, enc, key, after, limit);
    var n := |RevsOf(hist, key)|;
    var lo := SliceStart(n, after);
    if lo + limit <= n {
      HistoryPagesConcatenate(log, hist, grid, enc, key, lo + limit - 1, limit);
      SlicesConcatenate(hist, key, lo, lo + limit, n);
    }
  }

  /** What a head read hands up on agreeing tables: the last committed revision
      with every column, except that it always calls it a change. */
  lemma HeadReadsTip(heads: Heads, hist: History, key: Key)
    requires HeadsAgree(heads, hist) && key in heads
    ensures RevsOf(hist, key) != []
    ensures var r := |hist[key]| - 1;
      && StoredFromHead(key, heads[key]) == StoredOf(key, r, hist[key][r]).(kind := Change)
      && (StoredFromHead(key, heads[key]) == StoredOf(key, r, hist[key][r]) <==> hist[key][r].kind == Change)
  {
  }

  // ------------------------------------------------------------------- search

  function MatchingIds(heads: Heads, stream: string, matches: Doc -> bool): set<nat> {
    set key | key in heads && key.stream == stream && matches(heads[key].state) :: key.id
  }

  /** `search_heads`: matching heads of the stream after the cursor, by id. */
  ghost function SearchIds(
      heads: Heads, stream: string, matches: Doc -> bool, cursor: Option<nat>, limit: nat): seq<nat> {
    IdOrder();
    PageAfter(Sorted(MatchingIds(heads, stream, matches), IdLess), cursor, limit, IdLess)
  }

  function SearchItems(heads: Heads, stream: string, ids: seq<nat>): seq<StoredRevision>
    requires forall i :: 0 <= i < |ids| ==> Key(stream, ids[i]) in heads
  {
    seq(|ids|, i requires 0 <= i < |ids| => StoredFromHead(Key(stream, ids[i]), heads[Key(stream, ids[i])]))
  }

  lemma SearchedHeadsExist(heads: Heads, stream: string, matches: Doc -> bool, cursor: Option<nat>, limit: nat)
    ensures var ids := SearchIds(heads, stream, matches, cursor, limit);
      forall i :: 0 <= i < |ids| ==> Key(stream, ids[i]) in heads && matches(heads[Key(stream, ids[i])].state)
  {
    SearchPageIds(heads, stream, matches, cursor, limit);
    var ids := SearchIds(heads, stream, matches, cursor, limit);
    hide SearchIds;
    forall i | 0 <= i < |ids| ensures Key(stream, ids[i]) in heads && matches(heads[Key(stream, ids[i])].state) {
      assert ids[i] in ids && ids[i] in MatchingIds(heads, stream, matches);
    }
  }

  ghost function SearchPage(heads: Heads, stream: string, matches: Doc -> bool, cursor: Option<nat>, limit: int):
    Result<Page<StoredRevision, nat>>
  {
    if limit < 1 then Err(UsageError)
    else
      var ids := SearchIds(heads, stream, matches, cursor, limit);
      SearchedHeadsExist(heads, stream, matches, cursor, limit);
      Ok(Page(SearchItems(heads, stream, ids), NextCursor(ids, limit)))
  }

  /** What one page's ids satisfy. */
  lemma SearchPageIds(heads: Heads, stream: string, matches: Doc -> bool, cursor: Option<nat>, limit: nat)
    ensures var ids := SearchIds(heads, stream, matches, cursor, limit);
      var all := MatchingIds(heads, stream, matches);
      && |ids| <= limit
      && (forall i, j :: 0 <= i < j < |ids| ==> ids[i] < ids[j])
      && (forall id :: id in ids ==> id in all && (cursor.Some? ==> cursor.value < id))
      && (forall id :: id in all && (cursor.Some? ==> cursor.value < id) ==>
            id in ids || (|ids| == limit && (ids != [] ==> ids[|ids| - 1] < id)))
  {
    IdOrder();
    PageOfIds(MatchingIds(heads, stream, matches), cursor, limit);
  }

  lemma PageOfIds(all: set<nat>, cursor: Option<nat>, limit: nat)
    requires StrictTotal(IdLess)
    ensures var ids := PageAfter(Sorted(all, IdLess), cursor, limit, IdLess);
      && |ids| <= limit
      && (forall i, j :: 0 <= i < j < |ids| ==> ids[i] < ids[j])
      && (forall id :: id in ids ==> id in all && (cursor.Some? ==> cursor.value < id))
      && (forall id :: id in all && (cursor.Some? ==> cursor.value < id) ==>
            id in ids || (|ids| == limit && (ids != [] ==> ids[|ids| - 1] < id)))
  {
    hide StrictTotal;
    AfterIsSorted(all, cursor, IdLess);
    var rest := Sorted(Beyond(all, cursor, IdLess), IdLess);
    var ids := PageAfter(Sorted(all, IdLess), cursor, limit, IdLess);
    forall i, j | 0 <= i < j < |rest| ensures rest[i] < rest[j] { assert IdLess(rest[i], rest[j]); }
    hide Increasing, Sorted, PageAfter;
    assert ids == if |rest| <= limit then rest else rest[..limit];
    forall id | id in ids ensures id in all && (cursor.Some? ==> cursor.value < id) {
      assert id in rest && id in Beyond(all, cursor, IdLess);
    }
    forall id | id in all && (cursor.Some? ==> cursor.value < id)
      ensures id in ids || (|ids| == limit && (ids != [] ==> ids[|ids| - 1] < id))
    {
      assert id in Beyond(all, cursor, IdLess) && id in rest;
      var k :| 0 <= k < |rest| && rest[k] == id;
      if k < |ids| { assert ids[k] == id; }
    }
  }

  /** The item is the last committed revision of a matching aggregate of the stream
      after the cursor, handed up as a change. */
  ghost predicate FoundTip(
      hist: History, stream: string, matches: Doc -> bool, cursor: Option<nat>, item: StoredRevision)
  {
    && item.key.stream == stream && item.key in hist && hist[item.key] != []
    && (cursor.Some? ==> cursor.value < item.key.id)
    && var r := |hist[item.key]| - 1;
    && matches(hist[item.key][r].doc)
    && item == StoredOf(item.key, r, hist[item.key][r]).(kind := Change)
  }

  /** On agreeing heads a search page holds the tips of the first `limit` matching
      aggregates after the cursor, in id order, and a cursor exactly when it is full. */
  lemma SearchPageReturnsTips(
      heads: Heads, hist: History, stream: string, matches: Doc -> bool, cursor: Option<nat>, limit: int)
    requires HeadsAgree(heads, hist) && limit >= 1
    ensures SearchPage(heads, stream, matches, cursor, limit).Ok?
    ensures var page := SearchPage(heads, stream, matches, cursor, limit).value;
      var n := |page.items|;
      && n <= limit
      && (forall i :: 0 <= i < n ==> FoundTip(hist, stream, matches, cursor, page.items[i]))
      && (forall i, j :: 0 <= i < j < n ==> page.items[i].key.id < page.items[j].key.id)
      && (forall key, r :: key in hist && key.stream == stream && r == |hist[key]| - 1 && hist[key] != []
                           && matches(hist[key][r].doc) && (cursor.Some? ==> cursor.value < key.id) ==>
            (exists i :: 0 <= i < n && page.items[i].key == key)
            || (n == limit && page.items[n - 1].key.id < key.id))
      && page.cursor == if n == limit then Some(page.items[n - 1].key.id) else None
  {
    hide FoundTip, HeadsAgree, SearchItems, MatchingIds;
    var ids := SearchIds(heads, stream, matches, cursor, limit);
    SearchPageIds(heads, stream, matches, cursor, limit);
    SearchedHeadsExist(heads, stream, matches, cursor, limit);
    var items := SearchItems(heads, stream, ids);
    assert SearchPage(heads, stream, matches, cursor, limit) == Ok(Page(items, NextCursor(ids, limit)));
    hide SearchIds, SearchPage;
    ItemKeys(heads, stream, ids);
    forall i | 0 <= i < |items| ensures FoundTip(hist, stream, matches, cursor, items[i]) {
      assert ids[i] in ids;
      ItemIsTip(heads, hist, stream, matches, cursor, ids, i);
    }
    forall key, r | key in hist && key.stream == stream && r == |hist[key]| - 1 && hist[key] != []
                    && matches(hist[key][r].doc) && (cursor.Some? ==> cursor.value < key.id)
      ensures (exists i :: 0 <= i < |items| && items[i].key == key)
        || (|items| == limit && items[|items| - 1].key.id < key.id)
    {
      TipMatches(heads, hist, matches, key, r);
      if key.id in ids {
        var i :| 0 <= i < |ids| && ids[i] == key.id;
        assert items[i].key == key;
      }
    }
  }

  lemma ItemKeys(heads: Heads, stream: string, ids: seq<nat>)
    requires forall i :: 0 <= i < |ids| ==> Key(stream, ids[i]) in heads
    ensures var items := SearchItems(heads, stream, ids);
      |items| == |ids| && forall i :: 0 <= i < |ids| ==> items[i].key == Key(stream, ids[i])
  {
  }

  lemma ItemIsTip(
      heads: Heads, hist: History, stream: string, matches: Doc -> bool, cursor: Option<nat>, ids: seq<nat>, i: nat)
    requires HeadsAgree(heads, hist) && i < |ids| && (cursor.Some? ==> cursor.value < ids[i])
    requires forall j :: 0 <= j < |ids| ==> Key(stream, ids[j]) in heads && matches(heads[Key(stream, ids[j])].state)
    ensures FoundTip(hist, stream, matches, cursor, SearchItems(heads, stream, ids)[i])
  {
    var key := Key(stream, ids[i]);
    assert key in heads && matches(heads[key].state);
    HeadReadsTip(heads, hist, key);
  }

  lemma TipMatches(heads: Heads, hist: History, matches: Doc -> bool, key: Key, r: int)
    requires HeadsAgree(heads, hist) && key in hist && hist[key] != [] && r == |hist[key]| - 1
    requires matches(hist[key][r].doc)
    ensures key.id in MatchingIds(heads, key.stream, matches)
  {
    assert heads[key].state == hist[key][r].doc;
  }

  /** A whole search: page i is read from `snaps[i]`, whatever was committed in
      between, at the cursor that page i-1 returned. */
  ghost predicate SearchRun(snaps: seq<Heads>, stream: string, matches: Doc -> bool, limit: nat, pages: seq<seq<nat>>) {
    |pages| == |snaps| && forall i :: 0 <= i < |pages| ==> PageRead(snaps, stream, matches, limit, pages, i)
  }

  ghost predicate PageRead(
      snaps: seq<Heads>, stream: string, matches: Doc -> bool, limit: nat, pages: seq<seq<nat>>, i: nat)
    requires i < |pages| == |snaps|
  {
    && pages[i] == SearchIds(snaps[i], stream, matches, CursorOf(pages, i, limit), limit)
    && (i > 0 ==> CursorOf(pages, i, limit).Some?)
  }

  /** The cursor page i is read with. */
  ghost function CursorOf(pages: seq<seq<nat>>, i: nat, limit: nat): Option<nat>
    requires i <= |pages|
  {
    if i == 0 then None else NextCursor(pages[i - 1], limit)
  }

  function Concat(pages: seq<seq<nat>>): seq<nat> {
    if pages == [] then [] else Concat(pages[..|pages| - 1]) + pages[|pages| - 1]
  }

  /** Ids strictly increase over all pages, and the last one is the next cursor. */
  lemma {:induction false} SearchIdsIncrease(
      snaps: seq<Heads>, stream: string, matches: Doc -> bool, limit: nat, pages: seq<seq<nat>>)
    requires limit >= 1 && SearchRun(snaps, stream, matches, limit, pages)
    ensures var ids := Concat(pages);
      && (forall i, j :: 0 <= i < j < |ids| ==> ids[i] < ids[j])
      && (CursorOf(pages, |pages|, limit).Some? ==>
            ids != [] && ids[|ids| - 1] == CursorOf(pages, |pages|, limit).value)
    decreases |pages|
  {
    if pages != [] {
      var n := |pages| - 1;
      SearchRunPrefix(snaps, stream, matches, limit, pages);
      SearchIdsIncrease(snaps[..n], stream, matches, limit, pages[..n]);
      assert PageRead(snaps, stream, matches, limit, pages, n);
      SearchPageIds(snaps[n], stream, matches, CursorOf(pages, n, limit), limit);
      hide SearchIds, MatchingIds;
      if n > 0 { assert CursorOf(pages, n, limit) == CursorOf(pages[..n], n, limit); }
      assert CursorOf(pages, n, limit).None? ==> Concat(pages[..n]) == [];
      hide SearchRun;
      IncreasingConcat(Concat(pages[..n]), pages[n]);
    }
  }

  lemma IncreasingConcat(front: seq<nat>, page: seq<nat>)
    requires forall i, j :: 0 <= i < j < |front| ==> front[i] < front[j]
    requires forall i, j :: 0 <= i < j < |page| ==> page[i] < page[j]
    requires front != [] ==> forall id :: id in page ==> front[|front| - 1] < id
    ensures forall i, j :: 0 <= i < j < |front + page| ==> (front + page)[i] < (front + page)[j]
  {
    forall i | 0 <= i < |page| ensures front != [] ==> front[|front| - 1] < page[i] { assert page[i] in page; }
  }

  lemma SearchRunPrefix(snaps: seq<Heads>, stream: string, matches: Doc -> bool, limit: nat, pages: seq<seq<nat>>)
    requires SearchRun(snaps, stream, matches, limit, pages) && pages != []
    ensures SearchRun(snaps[..|snaps| - 1], stream, matches, limit, pages[..|pages| - 1])
  {
    hide SearchIds;
    var n := |pages| - 1;
    forall i | 0 <= i < n ensures PageRead(snaps[..n], stream, matches, limit, pages[..n], i) {
      assert PageRead(snaps, stream, matches, limit, pages, i);
      assert CursorOf(pages[..n], i, limit) == CursorOf(pages, i, limit);
    }
  }

  /** The aggregate's head existed and matched at each page read. */
  ghost predicate AlwaysMatches(snaps: seq<Heads>, stream: string, matches: Doc -> bool, id: nat) {
    forall i :: 0 <= i < |snaps| ==> id in MatchingIds(snaps[i], stream, matches)
  }

  /** An id that matches at every page read is in the pages so far, or is still
      ahead of the cursor, or the scan is over and has returned it. */
  lemma {:induction false} SearchReaches(
      snaps: seq<Heads>, stream: string, matches: Doc -> bool, limit: nat, pages: seq<seq<nat>>, id: nat)
    requires limit >= 1 && SearchRun(snaps, stream, matches, limit, pages)
    requires AlwaysMatches(snaps, stream, matches, id)
    ensures id in Concat(pages) || pages == []
      || (CursorOf(pages, |pages|, limit).Some? && CursorOf(pages, |pages|, limit).value < id)
    decreases |pages|
  {
    if pages != [] {
      hide SearchIds, MatchingIds;
      var n := |pages| - 1;
      SearchRunPrefix(snaps, stream, matches, limit, pages);
      assert forall i :: 0 <= i < n ==> snaps[..n][i] == snaps[i];
      assert AlwaysMatches(snaps[..n], stream, matches, id);
      SearchReaches(snaps[..n], stream, matches, limit, pages[..n], id);
      assert n > 0 ==> CursorOf(pages, n, limit) == CursorOf(pages[..n], n, limit);
      assert PageRead(snaps, stream, matches, limit, pages, n);
      hide SearchRun;
      if id !in Concat(pages[..n]) { PageReaches(snaps[n], stream, matches, CursorOf(pages, n, limit), limit, id); }
    }
  }

  lemma PageReaches(heads: Heads, stream: string, matches: Doc -> bool, cursor: Option<nat>, limit: nat, id: nat)
    requires limit >= 1 && id in MatchingIds(heads, stream, matches) && (cursor.Some? ==> cursor.value < id)
    ensures var ids := SearchIds(heads, stream, matches, cursor, limit);
      id in ids || (NextCursor(ids, limit).Some? && NextCursor(ids, limit).value < id)
  {
    hide SearchIds, MatchingIds;
    SearchPageIds(heads, stream, matches, cursor, limit);
  }

  /** A completed search returns, exactly once and in increasing id order, every
      aggregate whose head existed and matched at each page read. */
  lemma CompletedSearchIsGapFree(
      snaps: seq<Heads>, stream: string, matches: Doc -> bool, limit: nat, pages: seq<seq<nat>>)
    requires limit >= 1 && SearchRun(snaps, stream, matches, limit, pages)
    requires pages != [] && CursorOf(pages, |pages|, limit).None?
    ensures forall i, j :: 0 <= i < j < |Concat(pages)| ==> Concat(pages)[i] < Concat(pages)[j]
    ensures forall id :: AlwaysMatches(snaps, stream, matches, id) ==> id in Concat(pages)
    ensures forall i, id :: 0 <= i < |pages| && id in pages[i] ==> id in MatchingIds(snaps[i], stream, matches)
  {
    hide SearchIds;
    forall i, id | 0 <= i < |pages| && id in pages[i] ensures id in MatchingIds(snaps[i], stream, matches) {
      assert PageRead(snaps, stream, matches, limit, pages, i);
      SearchPageIds(snaps[i], stream, matches, CursorOf(pages, i, limit), limit);
    }
    SearchIdsIncrease(snaps, stream, matches, limit, pages);
    forall id | AlwaysMatches(snaps, stream, matches, id)
      ensures id in Concat(pages)
    {
      SearchReaches(snaps, stream, matches, limit, pages, id);
    }
  }
}
