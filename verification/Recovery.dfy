/** Folding the whole log by pages: the streaming fold behind `rebuild_heads`
    and `verify`, and what both compute. */
module Recovery {
  import opened Results
  import opened JsonValues
  import opened DeltaEncoding
  import opened Tables
  import opened LogReads
  import opened Ordering

  type Scope = Option<string>

  predicate InScope(key: Key, scope: Scope) {
    scope.None? || key.stream == scope.value
  }

  function RowsIn(log: Log, scope: Scope): set<RowKey> {
    set rk | rk in log && InScope(rk.key, scope)
  }

  /** The log in `(stream, aggregate_id, revision)` order. */
  ghost function Scan(log: Log, scope: Scope): seq<RowKey> {
    RowKeyOrder();
    Sorted(RowsIn(log, scope), RowKeyLess)
  }

  lemma ScanIsOrdered(log: Log, scope: Scope)
    ensures StrictTotal(RowKeyLess) && Increasing(Scan(log, scope), RowKeyLess)
    ensures forall rk :: rk in Scan(log, scope) <==> rk in log && InScope(rk.key, scope)
  {
    RowKeyOrder();
  }

  lemma ScanAscends(log: Log, scope: Scope, i: int, j: int)
    requires 0 <= i < j < |Scan(log, scope)|
    ensures RowKeyLess(Scan(log, scope)[i], Scan(log, scope)[j])
  {
  }

  lemma ScannedIsLogged(log: Log, scope: Scope, p: int)
    requires 0 <= p < |Scan(log, scope)|
    ensures Scan(log, scope)[p] in log && InScope(Scan(log, scope)[p].key, scope)
  {
    ScanIsOrdered(log, scope);
    assert Scan(log, scope)[p] in Scan(log, scope);
  }

  lemma LoggedIsScanned(log: Log, scope: Scope, rk: RowKey) returns (i: int)
    requires rk in log && InScope(rk.key, scope)
    ensures 0 <= i < |Scan(log, scope)| && Scan(log, scope)[i] == rk
  {
    ScanIsOrdered(log, scope);
    assert rk in Scan(log, scope);
    i :| 0 <= i < |Scan(log, scope)| && Scan(log, scope)[i] == rk;
  }

  /** `select_all_log_for`: the rows after the cursor, at most `chunk` of them;
      after a cursor that stands behind p rows, these are the next ones. */
  method SelectLogChunk(log: Log, scope: Scope, chunk: nat, after: Option<RowKey>, ghost p: nat)
    returns (rows: seq<RowKey>)
    requires CursorAt(Scan(log, scope), p, after)
    ensures rows == Scan(log, scope)[p..if |Scan(log, scope)| - p <= chunk then |Scan(log, scope)| else p + chunk]
  {
    ScanIsOrdered(log, scope);
    rows := SelectPage(RowsIn(log, scope), after, chunk, RowKeyLess);
    NextPage(Scan(log, scope), p, after, chunk, RowKeyLess);
  }

  /** One completed aggregate with its folded document. */
  datatype Emit = Emit(key: Key, doc: Doc)

  /** Group adjacent rows by aggregate and fold each group. */
  function GroupFold(log: Log, rows: seq<RowKey>): seq<Emit> {
    if rows == [] then []
    else if rows[|rows| - 1] !in log then GroupFold(log, rows[..|rows| - 1])
    else AddRow(GroupFold(log, rows[..|rows| - 1]), rows[|rows| - 1].key, log[rows[|rows| - 1]])
  }

  function AddRow(groups: seq<Emit>, key: Key, row: Row): seq<Emit> {
    if groups != [] && groups[|groups| - 1].key == key
    then groups[..|groups| - 1] + [Emit(key, Accumulate(groups[|groups| - 1].doc, row))]
    else groups + [Emit(key, Accumulate(map[], row))]
  }

  lemma GroupFoldNone(log: Log)
    ensures GroupFold(log, []) == []
  {
  }

  lemma GroupFoldNext(log: Log, rows: seq<RowKey>, p: nat)
    requires p < |rows| && rows[p] in log
    ensures GroupFold(log, rows[..p + 1]) == AddRow(GroupFold(log, rows[..p]), rows[p].key, log[rows[p]])
  {
    assert rows[..p + 1][..p] == rows[..p];
  }

  /** Everything the streaming fold emits. */
  ghost function Emits(log: Log, scope: Scope): seq<Emit> {
    GroupFold(log, Scan(log, scope))
  }

  /** What the fold has produced after the first p rows of the scan. */
  ghost function EmitsUpTo(log: Log, scope: Scope, p: nat): seq<Emit>
    requires p <= |Scan(log, scope)|
  {
    GroupFold(log, Scan(log, scope)[..p])
  }

  lemma EmitsUpToNext(log: Log, scope: Scope, p: nat)
    requires p < |Scan(log, scope)|
    ensures var rk := Scan(log, scope)[p];
      && rk in log
      && EmitsUpTo(log, scope, p + 1) == AddRow(EmitsUpTo(log, scope, p), rk.key, log[rk])
  {
    ScannedIsLogged(log, scope, p);
    GroupFoldNext(log, Scan(log, scope), p);
  }

  lemma EmitsUpToEnds(log: Log, scope: Scope)
    ensures EmitsUpTo(log, scope, 0) == []
    ensures EmitsUpTo(log, scope, |Scan(log, scope)|) == Emits(log, scope)
  {
    assert Scan(log, scope)[..|Scan(log, scope)|] == Scan(log, scope);
  }

  /** `_accumulate_into`, in place on the in-flight document. */
  method AccumulateInto(doc: Doc, row: Row) returns (r: Doc)
    ensures r == Accumulate(doc, row)
  {
    match row.payload
    case Full(d) => r := d;
    case Delta(p) => r := DecodeInPlace(p, doc);
  }

  /** What has been emitted, plus the aggregate in flight. */
  function InFlight(emitted: seq<Emit>, current: Option<Key>, doc: Doc): seq<Emit> {
    if current.None? then emitted else emitted + [Emit(current.value, doc)]
  }

  /** Adding a row to what is in flight: extend the current aggregate, or emit it
      and start the row's own. */
  lemma FlightStep(emitted: seq<Emit>, current: Option<Key>, doc: Doc, key: Key, row: Row)
    requires current.None? ==> emitted == []
    ensures AddRow(InFlight(emitted, current, doc), key, row)
      == if current == Some(key) then InFlight(emitted, current, Accumulate(doc, row))
         else InFlight(if current.None? then [] else emitted + [Emit(current.value, doc)],
                       Some(key), Accumulate(map[], row))
  {
  }

  /** `_stream_log`: page through the log carrying one in-flight document, and
      emit an aggregate when the key changes.  Whatever the chunk size, what is
      emitted is the grouped fold of the whole scan. */
  method StreamLog(log: Log, scope: Scope, chunk: nat) returns (emitted: seq<Emit>)
    requires chunk >= 1
    ensures emitted == Emits(log, scope)
  {
    hide Accumulate, AddRow, InFlight, EmitsUpTo, Emits, Scan;
    ghost var scan := Scan(log, scope);
    ghost var p := 0;
    emitted := [];
    var current: Option<Key> := None;
    var doc: Doc := map[];
    var after: Option<RowKey> := None;
    EmitsUpToEnds(log, scope);
    Landed(emitted, current, doc);
    while true
      invariant CursorAt(scan, p, after)
      invariant current.None? ==> p == 0 && emitted == []
      invariant InFlight(emitted, current, doc) == EmitsUpTo(log, scope, p)
      decreases |scan| - p
    {
      var rows := SelectLogChunk(log, scope, chunk, after, p);
      if rows == [] { break; }
      after := Some(rows[|rows| - 1]);
      var i := 0;
      while i < |rows|
        invariant 0 <= i <= |rows|
        invariant current.None? ==> p + i == 0 && emitted == []
        invariant InFlight(emitted, current, doc) == EmitsUpTo(log, scope, p + i)
      {
        var rk := rows[i];
        EmitsUpToNext(log, scope, p + i);
        FlightStep(emitted, current, doc, rk.key, log[rk]);
        if current.None? {
          current := Some(rk.key);
          doc := map[];
        } else if rk.key != current.value {
          emitted := emitted + [Emit(current.value, doc)];
          current := Some(rk.key);
          doc := map[];
        }
        doc := AccumulateInto(doc, log[rk]);
        i := i + 1;
      }
      p := p + |rows|;
    }
    Landed(emitted, current, doc);
    if current.Some? {
      emitted := emitted + [Emit(current.value, doc)];
    }
  }

  lemma Landed(emitted: seq<Emit>, current: Option<Key>, doc: Doc)
    ensures InFlight(emitted, current, doc)
      == if current.None? then emitted else emitted + [Emit(current.value, doc)]
  {
  }

  // ------------------------------------------- the grouped fold, characterized

  /** `ck_revision_nonneg` */
  ghost predicate NonNegative(log: Log) {
    forall rk :: rk in log ==> rk.rev >= 0
  }

  /** Revision `r` is the aggregate's last row. */
  ghost predicate IsLatest(log: Log, key: Key, r: int) {
    RowKey(key, r) in log && forall q :: RowKey(key, q) in log ==> q <= r
  }

  /** `e` closes at scan position `j`: the last row of its aggregate so far. */
  ghost predicate ClosesAt(log: Log, rows: seq<RowKey>, e: Emit, j: int) {
    && 0 <= j < |rows|
    && rows[j].key == e.key
    && (j + 1 < |rows| ==> rows[j + 1].key != e.key)
    && e.doc == FullFold(log, e.key, rows[j].rev)
  }

  /** The emits so far: keys ascending, each closing at some row, every row's
      aggregate among them, and the last one closing at the last row. */
  ghost predicate Grouped(log: Log, rows: seq<RowKey>, emits: seq<Emit>) {
    && KeysAscend(emits)
    && (forall a :: 0 <= a < |emits| ==> Closes(log, rows, emits[a]))
    && (forall j :: 0 <= j < |rows| ==> Emitted(emits, rows[j].key))
    && (rows != [] ==> emits != [] && ClosesAt(log, rows, emits[|emits| - 1], |rows| - 1))
  }

  ghost predicate KeysAscend(emits: seq<Emit>) {
    forall a, b :: 0 <= a < b < |emits| ==> KeyLess(emits[a].key, emits[b].key)
  }

  ghost predicate Closes(log: Log, rows: seq<RowKey>, e: Emit) {
    exists j :: ClosesAt(log, rows, e, j)
  }

  ghost predicate Emitted(emits: seq<Emit>, key: Key) {
    exists a :: 0 <= a < |emits| && emits[a].key == key
  }

  /** Between two adjacent rows of the scan the log has no row. */
  lemma NoRowBetween(log: Log, scope: Scope, p: int, rk: RowKey)
    requires 0 <= p < |Scan(log, scope)| && rk in log && rk.key == Scan(log, scope)[p].key
    requires rk.rev < Scan(log, scope)[p].rev
    ensures p >= 1 && Scan(log, scope)[p - 1].key == rk.key && rk.rev <= Scan(log, scope)[p - 1].rev
  {
    var scan := Scan(log, scope);
    ScannedIsLogged(log, scope, p);
    var i := LoggedIsScanned(log, scope, rk);
    hide Scan;
    KeyIrreflexive(rk.key);
    if p < i {
      ScanAscends(log, scope, p, i);
    } else if i < p - 1 {
      ScanAscends(log, scope, i, p - 1);
      ScanAscends(log, scope, p - 1, p);
      KeySandwich(scan[i], scan[p - 1], scan[p]);
    }
  }

  lemma KeySandwich(a: RowKey, b: RowKey, c: RowKey)
    requires RowKeyLess(a, b) && RowKeyLess(b, c) && a.key == c.key
    ensures b.key == a.key && a.rev < b.rev < c.rev
  {
    if KeyLess(a.key, b.key) && KeyLess(b.key, a.key) { KeyTransitive(a.key, b.key, a.key); }
    KeyIrreflexive(a.key);
  }

  /** The fold before a scanned row is the fold at the scanned row before it. */
  lemma FoldBefore(log: Log, scope: Scope, p: int)
    requires NonNegative(log) && 0 <= p < |Scan(log, scope)|
    ensures var scan := Scan(log, scope); var rk := scan[p];
      && rk in log
      && FullFold(log, rk.key, rk.rev)
         == Accumulate(if p >= 1 && scan[p - 1].key == rk.key
                       then FullFold(log, rk.key, scan[p - 1].rev) else map[], log[rk])
  {
    hide Scan, FullFold, Accumulate;
    var scan := Scan(log, scope);
    var rk := scan[p];
    ScannedIsLogged(log, scope, p);
    FoldStep(log, rk.key, rk.rev);
    var follows := p >= 1 && scan[p - 1].key == rk.key;
    if follows {
      ScannedIsLogged(log, scope, p - 1);
      ScanAscends(log, scope, p - 1, p);
      KeyIrreflexive(rk.key);
    }
    var lo := if follows then scan[p - 1].rev else -1;
    forall r | lo < r <= rk.rev - 1 ensures RowKey(rk.key, r) !in log {
      if RowKey(rk.key, r) in log { NoRowBetween(log, scope, p, RowKey(rk.key, r)); }
    }
    GapFold(log, rk.key, lo, rk.rev - 1);
  }

  lemma KeyIrreflexive(k: Key)
    ensures !KeyLess(k, k)
  {
    KeyOrder();
  }

  lemma KeyTransitive(a: Key, b: Key, c: Key)
    requires KeyLess(a, b) && KeyLess(b, c)
    ensures KeyLess(a, c)
  {
    KeyOrder();
  }

  lemma {:induction false} GapFold(log: Log, key: Key, lo: int, hi: int)
    requires -1 <= lo <= hi && forall r :: lo < r <= hi ==> RowKey(key, r) !in log
    ensures FullFold(log, key, hi) == FullFold(log, key, lo)
    ensures lo == -1 ==> FullFold(log, key, hi) == map[]
    decreases hi
  {
    if lo < hi { GapFold(log, key, lo, hi - 1); }
  }

  /** One more scanned row keeps the emits grouped. */
  lemma GroupStep(log: Log, scope: Scope, p: nat)
    requires NonNegative(log) && p < |Scan(log, scope)|
    requires Grouped(log, Scan(log, scope)[..p], GroupFold(log, Scan(log, scope)[..p]))
    ensures Grouped(log, Scan(log, scope)[..p + 1], GroupFold(log, Scan(log, scope)[..p + 1]))
  {
    hide FullFold, Accumulate, GroupFold, Scan, StrictTotal, Increasing, RowKeyLess, Grouped;
    var scan := Scan(log, scope);
    var rows, rk := scan[..p], scan[p];
    var emits := GroupFold(log, rows);
    FoldBefore(log, scope, p);
    GroupFoldNext(log, scan, p);
    if p >= 1 {
      ScanAscends(log, scope, p - 1, p);
      RowOrder(scan[p - 1], rk);
      LastCloses(log, rows, emits);
    } else {
      assert rows == [];
      GroupFoldNone(log);
    }
    ExtendGroups(log, rows, rk, emits);
    assert rows + [rk] == scan[..p + 1];
  }

  lemma LastCloses(log: Log, rows: seq<RowKey>, emits: seq<Emit>)
    requires Grouped(log, rows, emits) && rows != []
    ensures var last := rows[|rows| - 1];
      emits != [] && emits[|emits| - 1] == Emit(last.key, FullFold(log, last.key, last.rev))
  {
  }

  lemma RowOrder(a: RowKey, b: RowKey)
    requires RowKeyLess(a, b)
    ensures a.key == b.key || KeyLess(a.key, b.key)
  {
  }

  /** The groups that a row for `key` leaves untouched. */
  ghost function Kept(emits: seq<Emit>, key: Key): seq<Emit> {
    if emits != [] && emits[|emits| - 1].key == key then emits[..|emits| - 1] else emits
  }

  /** Closing the aggregate in flight, or extending it, on the emits alone. */
  lemma ExtendGroups(log: Log, rows: seq<RowKey>, rk: RowKey, emits: seq<Emit>)
    requires Grouped(log, rows, emits)
    requires rows != [] ==> rows[|rows| - 1].key == rk.key || KeyLess(rows[|rows| - 1].key, rk.key)
    requires rows == [] ==> emits == []
    ensures Grouped(log, rows + [rk], Kept(emits, rk.key) + [Emit(rk.key, FullFold(log, rk.key, rk.rev))])
  {
    hide FullFold, KeyLess, KeysAscend, Closes, Emitted;
    var rows', last := rows + [rk], Emit(rk.key, FullFold(log, rk.key, rk.rev));
    var kept := Kept(emits, rk.key);
    var emits' := kept + [last];
    if rows != [] { LastCloses(log, rows, emits); }
    KeptAscends(emits, last);
    assert ClosesAt(log, rows', last, |rows|);
    forall a | 0 <= a < |emits'| ensures Closes(log, rows', emits'[a]) {
      if a < |kept| {
        assert Closes(log, rows, emits[a]) && kept[a].key != rk.key;
        StillCloses(log, rows, rk, emits[a]);
      } else {
        ClosesHere(log, rows', last, |rows|);
      }
    }
    forall j | 0 <= j < |rows'| ensures Emitted(emits', rows'[j].key) {
      if j < |rows| { assert Emitted(emits, rows[j].key); }
      StillEmitted(emits, last, rows'[j].key);
    }
  }

  lemma KeptAscends(emits: seq<Emit>, last: Emit)
    requires KeysAscend(emits)
    requires emits != [] ==> emits[|emits| - 1].key == last.key || KeyLess(emits[|emits| - 1].key, last.key)
    ensures KeysAscend(Kept(emits, last.key) + [last])
    ensures forall a :: 0 <= a < |Kept(emits, last.key)| ==> Kept(emits, last.key)[a].key != last.key
  {
    hide KeyLess;
    var kept := Kept(emits, last.key);
    KeyIrreflexive(last.key);
    forall a | 0 <= a < |kept| ensures KeyLess(kept[a].key, last.key) {
      if a < |emits| - 1 {
        assert KeyLess(emits[a].key, emits[|emits| - 1].key);
        if |kept| == |emits| { KeyTransitive(emits[a].key, emits[|emits| - 1].key, last.key); }
      }
    }
  }

  lemma StillCloses(log: Log, rows: seq<RowKey>, rk: RowKey, e: Emit)
    requires Closes(log, rows, e) && e.key != rk.key
    ensures Closes(log, rows + [rk], e)
  {
    hide FullFold;
    var j :| ClosesAt(log, rows, e, j);
    assert ClosesAt(log, rows + [rk], e, j);
  }

  lemma ClosesHere(log: Log, rows: seq<RowKey>, e: Emit, j: int)
    requires ClosesAt(log, rows, e, j)
    ensures Closes(log, rows, e)
  {
  }

  lemma StillEmitted(emits: seq<Emit>, last: Emit, key: Key)
    requires Emitted(emits, key) || key == last.key
    ensures Emitted(Kept(emits, last.key) + [last], key)
  {
    var kept := Kept(emits, last.key);
    if key == last.key {
      assert (kept + [last])[|kept|].key == key;
    } else {
      var a :| 0 <= a < |emits| && emits[a].key == key;
      assert (kept + [last])[a].key == key;
    }
  }

  /** The streaming fold emits each aggregate in scope once, in key order, with
      the fold of all of its rows up to its last one. */
  lemma EmitsEachAggregateOnce(log: Log, scope: Scope)
    requires NonNegative(log)
    ensures var emits := Emits(log, scope);
      && KeysAscend(emits)
      && (forall rk :: rk in log && InScope(rk.key, scope) ==> Emitted(emits, rk.key))
      && forall a :: 0 <= a < |emits| ==>
           InScope(emits[a].key, scope) && EmitsLatest(log, emits[a])
  {
    var scan, emits := Scan(log, scope), Emits(log, scope);
    hide Emits, Scan, KeysAscend, Closes, Emitted;
    ScanIsGrouped(log, scope);
    forall rk | rk in log && InScope(rk.key, scope) ensures Emitted(emits, rk.key) {
      var i := LoggedIsScanned(log, scope, rk);
      assert Emitted(emits, scan[i].key);
    }
    forall a | 0 <= a < |emits| ensures InScope(emits[a].key, scope) && EmitsLatest(log, emits[a]) {
      assert Closes(log, scan, emits[a]);
      CloseIsLatest(log, scope, emits[a]);
    }
  }

  /** `e` carries the fold of its aggregate up to the aggregate's last row. */
  ghost predicate EmitsLatest(log: Log, e: Emit) {
    exists r :: IsLatest(log, e.key, r) && e.doc == FullFold(log, e.key, r)
  }

  lemma CloseIsLatest(log: Log, scope: Scope, e: Emit)
    requires Closes(log, Scan(log, scope), e)
    ensures InScope(e.key, scope) && EmitsLatest(log, e)
  {
    hide Scan, FullFold;
    var scan := Scan(log, scope);
    var j :| ClosesAt(log, scan, e, j);
    ScannedIsLogged(log, scope, j);
    forall q | RowKey(e.key, q) in log ensures q <= scan[j].rev {
      var i := LoggedIsScanned(log, scope, RowKey(e.key, q));
      if j < i {
        ScanAscends(log, scope, j, j + 1);
        if j + 1 < i {
          ScanAscends(log, scope, j + 1, i);
          KeySandwich(scan[j], scan[j + 1], scan[i]);
        }
      } else if i < j {
        ScanAscends(log, scope, i, j);
        KeyIrreflexive(e.key);
      }
    }
    assert IsLatest(log, e.key, scan[j].rev);
  }

  lemma ScanIsGrouped(log: Log, scope: Scope)
    requires NonNegative(log)
    ensures Grouped(log, Scan(log, scope), Emits(log, scope))
  {
    PrefixIsGrouped(log, scope, |Scan(log, scope)|);
    EmitsUpToEnds(log, scope);
    assert Scan(log, scope)[..|Scan(log, scope)|] == Scan(log, scope);
  }

  lemma {:induction false} PrefixIsGrouped(log: Log, scope: Scope, p: nat)
    requires NonNegative(log) && p <= |Scan(log, scope)|
    ensures Grouped(log, Scan(log, scope)[..p], GroupFold(log, Scan(log, scope)[..p]))
  {
    hide Scan;
    if p > 0 {
      PrefixIsGrouped(log, scope, p - 1);
      GroupStep(log, scope, p - 1);
    } else {
      assert Scan(log, scope)[..0] == [];
    }
  }
}
