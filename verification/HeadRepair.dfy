/** What `rebuild_heads` and `verify` compute from the emitted folds, and that
    both are exact on a log that represents a history. */
module HeadRepair {
  import opened Results
  import opened JsonValues
  import opened Tables
  import opened LogReads
  import opened Ordering
  import opened Commits
  import opened Agreement
  import opened Recovery

  predicate RevGreater(a: int, b: int) {
    a > b
  }

  /** `select_latest_revision` */
  ghost function Latest(log: Log, key: Key): (r: Option<int>)
    ensures r.None? <==> forall rk :: rk in log ==> rk.key != key
    ensures r.Some? ==> IsLatest(log, key, r.value)
  {
    if RevisionsOf(log, key) == {} then
      (assert forall rk :: rk in log && rk.key == key ==> rk.rev in RevisionsOf(log, key); None)
    else
      LeastExists(RevisionsOf(log, key), RevGreater);
      var r :| IsLeast(r, RevisionsOf(log, key), RevGreater);
      assert forall q :: RowKey(key, q) in log ==> RowKey(key, q).rev in RevisionsOf(log, key);
      Some(r)
  }

  method SelectLatest(log: Log, key: Key) returns (r: Option<int>)
    ensures r == Latest(log, key)
  {
    var revs := RevisionsOf(log, key);
    if revs == {} {
      assert forall rk :: rk in log && rk.key == key ==> rk.rev in revs;
      return None;
    }
    var m := PickLeast(revs, RevGreater);
    assert RowKey(key, Latest(log, key).value).rev in revs;
    return Some(m);
  }

  // ------------------------------------------------------------------ rebuild

  datatype RebuildReport = RebuildReport(streams: set<string>, rebuilt: nat, orphansRemoved: nat, mismatches: nat)

  /** The callback's running state: the heads written so far and its counters. */
  datatype Progress = Progress(heads: Heads, emitted: set<Key>, streams: set<string>, rebuilt: nat, mismatches: nat)

  /** One emit: write the head from the aggregate's last row, unless the folded
      document does not have that row's digest. */
  ghost function RebuildOne(log: Log, p: Progress, e: Emit): Progress {
    var seen := p.(emitted := p.emitted + {e.key}, streams := p.streams + {e.key.stream});
    match Latest(log, e.key)
    case None => seen.(mismatches := p.mismatches + 1)
    case Some(r) =>
      var rk := RowKey(e.key, r);
      if DigestOf(CanonicalBytes(e.doc)) != log[rk].digest then seen.(mismatches := p.mismatches + 1)
      else seen.(heads := p.heads[e.key := HeadFromRow(rk, log[rk], e.doc)], rebuilt := p.rebuilt + 1)
  }

  ghost function RebuildAll(log: Log, start: Progress, emits: seq<Emit>): Progress {
    if emits == [] then start else RebuildOne(log, RebuildAll(log, start, emits[..|emits| - 1]), emits[|emits| - 1])
  }

  /** `delete_heads` */
  function OutOfScope(heads: Heads, scope: Scope): Heads {
    map key | key in heads && !InScope(key, scope) :: heads[key]
  }

  function KeysInScope(heads: Heads, scope: Scope): set<Key> {
    set key | key in heads && InScope(key, scope)
  }

  ghost function Rebuilding(log: Log, heads: Heads, scope: Scope): Progress {
    RebuildAll(log, Progress(OutOfScope(heads, scope), {}, {}, 0, 0), Emits(log, scope))
  }

  ghost function RebuiltHeads(log: Log, heads: Heads, scope: Scope): Heads {
    Rebuilding(log, heads, scope).heads
  }

  ghost function RebuildReportOf(log: Log, heads: Heads, scope: Scope): RebuildReport {
    var p := Rebuilding(log, heads, scope);
    RebuildReport(p.streams, p.rebuilt, |KeysInScope(heads, scope) - p.emitted|, p.mismatches)
  }

  // --------------------------------------------------- exactness of a rebuild

  function AggregatesIn(hist: History, scope: Scope): set<Key> {
    set key | key in hist && InScope(key, scope)
  }

  function Tip(hist: History, key: Key): Head
    requires key in hist && hist[key] != []
  {
    ProjectedHead(key, |hist[key]| - 1, hist[key][|hist[key]| - 1])
  }

  /** The heads commit would have kept in scope, and the given ones elsewhere. */
  ghost predicate ExactHeads(after: Heads, before: Heads, hist: History, scope: Scope) {
    forall key ::
      if InScope(key, scope)
      then (key in after <==> key in hist) && (key in hist ==> hist[key] != [] && after[key] == Tip(hist, key))
      else HeadOf(after, key) == HeadOf(before, key)
  }

  /** The emit carries its aggregate's last committed document. */
  ghost predicate EmitsTip(log: Log, hist: History, e: Emit) {
    && e.key in hist && hist[e.key] != []
    && var r := |hist[e.key]| - 1;
    && Latest(log, e.key) == Some(r)
    && e.doc == hist[e.key][r].doc
    && DigestOf(CanonicalBytes(e.doc)) == log[RowKey(e.key, r)].digest
    && HeadFromRow(RowKey(e.key, r), log[RowKey(e.key, r)], e.doc) == Tip(hist, e.key)
  }

  lemma AgreeingIsNonNegative(log: Log, hist: History, grid: Grid)
    requires LogAgrees(log, hist, grid)
    ensures NonNegative(log)
  {
  }

  lemma LatestEmitIsTip(log: Log, hist: History, grid: Grid, e: Emit)
    requires LogAgrees(log, hist, grid) && EmitsLatest(log, e)
    ensures EmitsTip(log, hist, e)
  {
    hide Gridded, FullFold;
    var r :| IsLatest(log, e.key, r) && e.doc == FullFold(log, e.key, r);
    assert RowKey(e.key, r) in log;
    var n := |RevsOf(hist, e.key)|;
    assert RowKey(e.key, n - 1) in log && RowKey(e.key, Latest(log, e.key).value) in log;
    assert AggregateAgrees(log, e.key, hist[e.key], GridOf(grid, e.key.stream));
    assert RevisionAgrees(log, e.key, n - 1, hist[e.key][n - 1]);
  }

  /** The state of a rebuild whose every emit so far rebuilt its head. */
  ghost predicate AllRebuilt(p: Progress, hist: History, start: Heads, emits: seq<Emit>) {
    && p.mismatches == 0 && p.rebuilt == |p.emitted|
    && (forall key :: key in p.emitted <==> Emitted(emits, key))
    && p.streams == (set key | key in p.emitted :: key.stream)
    && TipsOver(p.heads, p.emitted, hist, start)
  }

  ghost predicate TipsOver(heads: Heads, emitted: set<Key>, hist: History, start: Heads) {
    forall key :: if key in emitted then key in hist && hist[key] != [] && HeadOf(heads, key) == Some(Tip(hist, key))
                  else HeadOf(heads, key) == HeadOf(start, key)
  }

  lemma RebuildOneTip(log: Log, hist: History, p: Progress, e: Emit)
    requires EmitsTip(log, hist, e)
    ensures RebuildOne(log, p, e)
      == Progress(p.heads[e.key := Tip(hist, e.key)], p.emitted + {e.key}, p.streams + {e.key.stream},
                  p.rebuilt + 1, p.mismatches)
  {
  }

  lemma EmittedNext(emits: seq<Emit>, key: Key)
    requires emits != [] && KeysAscend(emits)
    ensures var front, last := emits[..|emits| - 1], emits[|emits| - 1];
      && KeysAscend(front)
      && !Emitted(front, last.key)
      && (Emitted(emits, key) <==> key == last.key || Emitted(front, key))
  {
    hide KeyLess;
    var front, last := emits[..|emits| - 1], emits[|emits| - 1];
    KeyIrreflexive(last.key);
    forall a | 0 <= a < |front| ensures front[a].key != last.key {
      assert KeyLess(emits[a].key, last.key);
    }
    assert emits[|front|].key == last.key;
    if Emitted(front, key) {
      var a :| 0 <= a < |front| && front[a].key == key;
      assert emits[a].key == key;
    }
    if Emitted(emits, key) && key != last.key {
      var a :| 0 <= a < |emits| && emits[a].key == key;
      assert front[a].key == key;
    }
  }

  /** Over tip-carrying emits with distinct keys every emit rebuilds its head. */
  lemma {:induction false} RebuildTips(log: Log, hist: History, start: Heads, emits: seq<Emit>)
    requires KeysAscend(emits) && forall a :: 0 <= a < |emits| ==> EmitsTip(log, hist, emits[a])
    ensures AllRebuilt(RebuildAll(log, Progress(start, {}, {}, 0, 0), emits), hist, start, emits)
    decreases |emits|
  {
    hide KeysAscend, EmitsTip, Emitted, RebuildOne;
    if emits == [] {
      assert forall key :: !Emitted([], key) by { forall key ensures !Emitted([], key) { NothingEmitted(key); } }
    } else {
      var front, last := emits[..|emits| - 1], emits[|emits| - 1];
      EmittedNext(emits, last.key);
      RebuildTips(log, hist, start, front);
      var p := RebuildAll(log, Progress(start, {}, {}, 0, 0), front);
      TipNonEmpty(log, hist, last);
      RebuildOneTip(log, hist, p, last);
      forall key ensures Emitted(emits, key) <==> key == last.key || Emitted(front, key) {
        EmittedNext(emits, key);
      }
      RebuiltNext(p, hist, start, front, last, emits);
    }
  }

  lemma NothingEmitted(key: Key)
    ensures !Emitted([], key)
  {
  }

  lemma TipNonEmpty(log: Log, hist: History, e: Emit)
    requires EmitsTip(log, hist, e)
    ensures e.key in hist && hist[e.key] != []
  {
  }

  lemma RebuiltNext(p: Progress, hist: History, start: Heads, front: seq<Emit>, last: Emit, emits: seq<Emit>)
    requires AllRebuilt(p, hist, start, front) && last.key in hist && hist[last.key] != []
    requires !Emitted(front, last.key)
    requires forall key :: Emitted(emits, key) <==> key == last.key || Emitted(front, key)
    ensures AllRebuilt(Progress(p.heads[last.key := Tip(hist, last.key)], p.emitted + {last.key},
                                p.streams + {last.key.stream}, p.rebuilt + 1, p.mismatches),
                       hist, start, emits)
  {
    hide Emitted, TipsOver;
    TipsOverNext(p.heads, p.emitted, hist, start, last.key);
    assert (set key | key in p.emitted + {last.key} :: key.stream) == p.streams + {last.key.stream};
  }

  lemma TipsOverNext(heads: Heads, emitted: set<Key>, hist: History, start: Heads, key: Key)
    requires TipsOver(heads, emitted, hist, start) && key in hist && hist[key] != []
    ensures TipsOver(heads[key := Tip(hist, key)], emitted + {key}, hist, start)
  {
  }

  /** On a log that represents a history, whatever the heads were, a rebuild
      leaves exactly the heads commit would have kept in scope and touches no
      other, reports no mismatch, counts every logged aggregate as rebuilt and
      every head key without log rows as an orphan. */
  lemma RebuildIsExact(log: Log, hist: History, grid: Grid, heads: Heads, scope: Scope)
    requires LogAgrees(log, hist, grid)
    ensures ExactHeads(RebuiltHeads(log, heads, scope), heads, hist, scope)
    ensures RebuildReportOf(log, heads, scope)
      == RebuildReport(set key | key in AggregatesIn(hist, scope) :: key.stream,
                       |AggregatesIn(hist, scope)|, |KeysInScope(heads, scope) - AggregatesIn(hist, scope)|, 0)
  {
    hide LogAgrees, Emits, EmitsTip, EmitsLatest, KeysAscend, RebuildAll, Emitted;
    var emits := Emits(log, scope);
    AgreeingIsNonNegative(log, hist, grid);
    EmitsEachAggregateOnce(log, scope);
    forall a | 0 <= a < |emits| ensures EmitsTip(log, hist, emits[a]) {
      LatestEmitIsTip(log, hist, grid, emits[a]);
    }
    RebuildTips(log, hist, OutOfScope(heads, scope), emits);
    EmitsCover(log, hist, grid, scope);
    var p := Rebuilding(log, heads, scope);
    assert p.emitted == AggregatesIn(hist, scope);
  }

  lemma EmitsCover(log: Log, hist: History, grid: Grid, scope: Scope)
    requires LogAgrees(log, hist, grid)
    ensures forall key :: Emitted(Emits(log, scope), key) <==> key in AggregatesIn(hist, scope)
    ensures forall key :: key in hist ==> hist[key] != []
  {
    hide Gridded, FullFold, Emits, Latest;
    AgreeingIsNonNegative(log, hist, grid);
    EmitsEachAggregateOnce(log, scope);
    forall key | key in hist ensures hist[key] != [] && RowKey(key, 0) in log {
      assert AggregateAgrees(log, key, hist[key], GridOf(grid, key.stream));
    }
    forall key ensures Emitted(Emits(log, scope), key) <==> key in AggregatesIn(hist, scope) {
      if Emitted(Emits(log, scope), key) {
        var a :| 0 <= a < |Emits(log, scope)| && Emits(log, scope)[a].key == key;
        LatestEmitIsTip(log, hist, grid, Emits(log, scope)[a]);
      }
      if key in AggregatesIn(hist, scope) { assert RowKey(key, 0) in log; }
    }
  }

  /** Rebuilding twice is rebuilding once, and the second time finds no orphan. */
  lemma RebuildIsIdempotent(log: Log, hist: History, grid: Grid, heads: Heads, scope: Scope)
    requires LogAgrees(log, hist, grid)
    ensures var once := RebuiltHeads(log, heads, scope);
      && RebuiltHeads(log, once, scope) == once
      && RebuildReportOf(log, once, scope)
         == RebuildReportOf(log, heads, scope).(orphansRemoved := 0)
  {
    var once := RebuiltHeads(log, heads, scope);
    RebuildIsExact(log, hist, grid, heads, scope);
    RebuildIsExact(log, hist, grid, once, scope);
    hide RebuildReportOf, RebuiltHeads, LogAgrees;
    var twice := RebuiltHeads(log, once, scope);
    ExactTwice(once, twice, heads, hist, scope);
  }

  lemma ExactTwice(once: Heads, twice: Heads, heads: Heads, hist: History, scope: Scope)
    requires ExactHeads(once, heads, hist, scope) && ExactHeads(twice, once, hist, scope)
    ensures twice == once
    ensures KeysInScope(once, scope) - AggregatesIn(hist, scope) == {}
  {
  }

  lemma SameHeads(a: Heads, b: Heads)
    requires forall key :: HeadOf(a, key) == HeadOf(b, key)
    ensures a == b
  {
    forall key ensures key in a <==> key in b { assert HeadOf(a, key) == HeadOf(b, key); }
    forall key | key in a ensures a[key] == b[key] { assert HeadOf(a, key) == HeadOf(b, key); }
  }

  /** A rebuild of everything restores the agreement of heads and log. */
  lemma RebuildRestoresAgreement(db: Db, hist: History, grid: Grid)
    requires LogAgrees(db.log, hist, grid)
    ensures Agrees(db.(heads := RebuiltHeads(db.log, db.heads, None)), hist, grid)
  {
    RebuildIsExact(db.log, hist, grid, db.heads, None);
    hide RebuiltHeads, LogAgrees;
    ExactEverywhere(RebuiltHeads(db.log, db.heads, None), db.heads, hist);
  }

  lemma ExactEverywhere(after: Heads, before: Heads, hist: History)
    requires ExactHeads(after, before, hist, None)
    ensures HeadsAgree(after, hist)
  {
  }

  /** Where heads already agree, a rebuild of any scope changes nothing. */
  lemma RebuildKeepsAgreement(db: Db, hist: History, grid: Grid, scope: Scope)
    requires Agrees(db, hist, grid)
    ensures RebuiltHeads(db.log, db.heads, scope) == db.heads
  {
    RebuildIsExact(db.log, hist, grid, db.heads, scope);
    hide RebuiltHeads, LogAgrees;
    var after := RebuiltHeads(db.log, db.heads, scope);
    forall key ensures HeadOf(after, key) == HeadOf(db.heads, key) {}
    SameHeads(after, db.heads);
  }

  // ------------------------------------------------------------------- verify

  datatype VerifyReport = VerifyReport(streams: set<string>, checked: nat, mismatches: nat)

  /** The row decodes by its own `every` to the document its digest names. */
  predicate RowSound(log: Log, rk: RowKey)
    requires rk in log
  {
    var doc := DecodedByRow(log, rk.key, rk.rev);
    doc.Ok? && DigestOf(CanonicalBytes(doc.value)) == log[rk].digest
  }

  predicate HeadSound(heads: Heads, e: Emit) {
    e.key in heads && heads[e.key].digest == DigestOf(CanonicalBytes(e.doc))
  }

  function BadRows(log: Log, rows: seq<RowKey>): nat {
    if rows == [] then 0
    else BadRows(log, rows[..|rows| - 1])
         + if rows[|rows| - 1] in log && !RowSound(log, rows[|rows| - 1]) then 1 else 0
  }

  function BadHeads(heads: Heads, emits: seq<Emit>): nat {
    if emits == [] then 0
    else BadHeads(heads, emits[..|emits| - 1]) + if HeadSound(heads, emits[|emits| - 1]) then 0 else 1
  }

  ghost function VerifyReportOf(log: Log, heads: Heads, scope: Scope): VerifyReport {
    VerifyReport(set rk | rk in RowsIn(log, scope) :: rk.key.stream, |RowsIn(log, scope)|,
                 BadRows(log, Scan(log, scope)) + BadHeads(heads, Emits(log, scope)))
  }

  lemma {:induction false} NoBadRows(log: Log, rows: seq<RowKey>)
    requires forall i :: 0 <= i < |rows| && rows[i] in log ==> RowSound(log, rows[i])
    ensures BadRows(log, rows) == 0
  {
    if rows != [] { NoBadRows(log, rows[..|rows| - 1]); }
  }

  /** The aggregate's head is missing, or does not carry its last revision's digest. */
  predicate HeadDamaged(heads: Heads, hist: History, key: Key) {
    key in hist && hist[key] != [] && (key !in heads || heads[key].digest != hist[key][|hist[key]| - 1].digest)
  }

  function DamagedIn(heads: Heads, hist: History, emits: seq<Emit>): set<Key> {
    set a | 0 <= a < |emits| && HeadDamaged(heads, hist, emits[a].key) :: emits[a].key
  }

  lemma {:induction false} BadHeadsCounts(log: Log, heads: Heads, hist: History, emits: seq<Emit>)
    requires KeysAscend(emits)
    requires forall a :: 0 <= a < |emits| ==> EmitsTip(log, hist, emits[a]) && TipDigest(hist, emits[a])
    ensures BadHeads(heads, emits) == |DamagedIn(heads, hist, emits)|
    decreases |emits|
  {
    hide EmitsTip, KeysAscend;
    if emits == [] {
      assert DamagedIn(heads, hist, emits) == {};
    } else {
      var front, last := emits[..|emits| - 1], emits[|emits| - 1];
      EmittedNext(emits, last.key);
      BadHeadsCounts(log, heads, hist, front);
      DamagedNext(heads, hist, emits);
      assert HeadSound(heads, last) <==> !HeadDamaged(heads, hist, last.key);
    }
  }

  lemma DamagedNext(heads: Heads, hist: History, emits: seq<Emit>)
    requires emits != [] && !Emitted(emits[..|emits| - 1], emits[|emits| - 1].key)
    ensures var front, last := emits[..|emits| - 1], emits[|emits| - 1].key;
      && DamagedIn(heads, hist, emits)
         == DamagedIn(heads, hist, front) + (if HeadDamaged(heads, hist, last) then {last} else {})
      && last !in DamagedIn(heads, hist, front)
  {
  }

  predicate TipDigest(hist: History, e: Emit) {
    && e.key in hist && hist[e.key] != []
    && hist[e.key][|hist[e.key]| - 1].digest == DigestOf(CanonicalBytes(e.doc))
  }

  lemma RowsAreSound(log: Log, hist: History, grid: Grid, rows: seq<RowKey>)
    requires LogAgrees(log, hist, grid)
    ensures BadRows(log, rows) == 0
  {
    hide Gridded, FullFold, DecodedByRow;
    forall i | 0 <= i < |rows| && rows[i] in log ensures RowSound(log, rows[i]) {
      var key, r := rows[i].key, rows[i].rev;
      assert AggregateAgrees(log, key, hist[key], GridOf(grid, key.stream));
      assert RevisionAgrees(log, key, r, hist[key][r]);
      RowReadIsFullFold(log, key, |hist[key]|, GridOf(grid, key.stream), r);
    }
    NoBadRows(log, rows);
  }

  lemma TipsCarryDigests(log: Log, hist: History, grid: Grid, scope: Scope)
    requires LogAgrees(log, hist, grid)
    ensures var emits := Emits(log, scope);
      && KeysAscend(emits)
      && forall a :: 0 <= a < |emits| ==> EmitsTip(log, hist, emits[a]) && TipDigest(hist, emits[a])
  {
    hide Gridded, FullFold, Emits, Latest, KeysAscend;
    AgreeingIsNonNegative(log, hist, grid);
    EmitsEachAggregateOnce(log, scope);
    var emits := Emits(log, scope);
    forall a | 0 <= a < |emits| ensures EmitsTip(log, hist, emits[a]) && TipDigest(hist, emits[a]) {
      LatestEmitIsTip(log, hist, grid, emits[a]);
      var key := emits[a].key;
      assert AggregateAgrees(log, key, hist[key], GridOf(grid, key.stream));
      assert RevisionAgrees(log, key, |hist[key]| - 1, hist[key][|hist[key]| - 1]);
    }
  }

  /** On a log that represents a history, whatever the heads are, verify checks
      every row in scope and counts exactly the aggregates in scope whose head is
      missing or has the wrong digest. */
  lemma VerifyCountsDamage(log: Log, hist: History, grid: Grid, heads: Heads, scope: Scope)
    requires LogAgrees(log, hist, grid)
    ensures var report := VerifyReportOf(log, heads, scope);
      && report.checked == |RowsIn(log, scope)|
      && report.mismatches == |set key | key in AggregatesIn(hist, scope) && HeadDamaged(heads, hist, key)|
  {
    hide LogAgrees, Emits, EmitsTip, TipDigest, KeysAscend, Scan, BadHeads, HeadDamaged;
    RowsAreSound(log, hist, grid, Scan(log, scope));
    TipsCarryDigests(log, hist, grid, scope);
    BadHeadsCounts(log, heads, hist, Emits(log, scope));
    EmitsCover(log, hist, grid, scope);
    DamagedEverywhere(heads, hist, scope, Emits(log, scope));
  }

  lemma DamagedEverywhere(heads: Heads, hist: History, scope: Scope, emits: seq<Emit>)
    requires forall key :: Emitted(emits, key) <==> key in AggregatesIn(hist, scope)
    ensures DamagedIn(heads, hist, emits) == set key | key in AggregatesIn(hist, scope) && HeadDamaged(heads, hist, key)
  {
  }

  /** Verify is clean exactly when every aggregate in scope has a head with its last
      revision's digest. */
  lemma VerifyCleanIffUndamaged(log: Log, hist: History, grid: Grid, heads: Heads, scope: Scope)
    requires LogAgrees(log, hist, grid)
    ensures VerifyReportOf(log, heads, scope).mismatches == 0 <==>
      forall key :: key in AggregatesIn(hist, scope) ==> !HeadDamaged(heads, hist, key)
  {
    hide LogAgrees, VerifyReportOf, HeadDamaged, AggregatesIn;
    VerifyCountsDamage(log, hist, grid, heads, scope);
    var damaged := set key | key in AggregatesIn(hist, scope) && HeadDamaged(heads, hist, key);
    assert VerifyReportOf(log, heads, scope).mismatches == |damaged|;
    if key :| key in AggregatesIn(hist, scope) && HeadDamaged(heads, hist, key) {
      assert key in damaged;
    } else {
      assert damaged == {};
    }
  }

  /** Verify does not look at heads without log rows: an orphan changes nothing. */
  lemma VerifyMissesOrphans(log: Log, hist: History, grid: Grid, heads: Heads, scope: Scope, key: Key, orphan: Head)
    requires LogAgrees(log, hist, grid) && key !in hist
    ensures VerifyReportOf(log, heads[key := orphan], scope) == VerifyReportOf(log, heads, scope)
  {
    SameDamage(log, hist, grid, heads, heads[key := orphan], scope);
  }

  /** Verify compares a head's digest column alone: whatever state, metadata,
      revision or versions the head carries beside it pass. */
  lemma VerifyMissesHeadContents(
      log: Log, hist: History, grid: Grid, heads: Heads, scope: Scope, key: Key, other: Head)
    requires LogAgrees(log, hist, grid) && key in heads && other.digest == heads[key].digest
    ensures VerifyReportOf(log, heads[key := other], scope) == VerifyReportOf(log, heads, scope)
  {
    SameDamage(log, hist, grid, heads, heads[key := other], scope);
  }

  lemma SameDamage(log: Log, hist: History, grid: Grid, a: Heads, b: Heads, scope: Scope)
    requires LogAgrees(log, hist, grid)
    requires forall key :: HeadDamaged(a, hist, key) <==> HeadDamaged(b, hist, key)
    ensures VerifyReportOf(log, a, scope) == VerifyReportOf(log, b, scope)
  {
    hide LogAgrees, HeadDamaged, AggregatesIn;
    VerifyCountsDamage(log, hist, grid, a, scope);
    VerifyCountsDamage(log, hist, grid, b, scope);
    assert (set key | key in AggregatesIn(hist, scope) && HeadDamaged(a, hist, key))
        == (set key | key in AggregatesIn(hist, scope) && HeadDamaged(b, hist, key));
  }

  /** Agreeing tables verify clean, whatever the scope. */
  lemma AgreeingVerifiesClean(db: Db, hist: History, grid: Grid, scope: Scope)
    requires Agrees(db, hist, grid)
    ensures VerifyReportOf(db.log, db.heads, scope).mismatches == 0
  {
    hide LogAgrees, VerifyReportOf;
    VerifyCleanIffUndamaged(db.log, hist, grid, db.heads, scope);
  }
}
