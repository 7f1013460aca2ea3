/** Re-sending committed requests against a good log whose heads are missing or
    behind: nothing is appended, and heads only move forward. */
module Replays {
  import opened JsonValues
  import opened Tables
  import opened LogReads
  import opened Commits
  import opened Agreement

  /** A head, if present, is the projection of some committed revision. */
  ghost predicate HeadBehind(heads: Heads, hist: History, key: Key) {
    key in heads ==>
      && 0 <= heads[key].rev < |RevsOf(hist, key)|
      && heads[key] == ProjectedHead(key, heads[key].rev, hist[key][heads[key].rev])
  }

  ghost predicate HeadsBehind(heads: Heads, hist: History) {
    forall key :: HeadBehind(heads, hist, key)
  }

  /** The request matches a committed revision in every compared column. */
  predicate Resends(hist: History, req: CommitRequest) {
    && 0 <= Target(req) < |RevsOf(hist, req.key)|
    && SameRevision(RevsOf(hist, req.key)[Target(req)], req)
  }

  /** The revision the head stands at, -1 when it is missing. */
  function HeadRev(heads: Heads, key: Key): int {
    if key in heads then heads[key].rev else -1
  }

  /** The highest of a starting revision and the requests' targets on `key`. */
  function Highest(start: int, key: Key, reqs: seq<CommitRequest>): int {
    if reqs == [] then start
    else
      var m := Highest(start, key, reqs[..|reqs| - 1]);
      var req := reqs[|reqs| - 1];
      if req.key == key then Max(m, Target(req)) else m
  }

  /** The aggregate's head is exactly the projection of revision `m`, or absent for -1. */
  ghost predicate HeadAt(heads: Heads, hist: History, key: Key, m: int) {
    if m == -1 then key !in heads
    else 0 <= m < |RevsOf(hist, key)| && key in heads && heads[key] == ProjectedHead(key, m, hist[key][m])
  }

  lemma ReplayOne(db: Db, hist: History, grid: Grid, enc: Encodings, req: CommitRequest, now: Time)
    requires LogAgrees(db.log, hist, grid) && OnGrid(enc, grid) && ValidEncodings(enc)
    requires HeadBehind(db.heads, hist, req.key) && Resends(hist, req)
    ensures CommitOne(db, enc, req, now).Ok?
    ensures var c := CommitOne(db, enc, req, now).value;
      && c.result == CommitResult(req.key, Target(req), now, true)
      && c.db == db.(heads := c.db.heads)
      && (forall key :: key != req.key ==> HeadOf(c.db.heads, key) == HeadOf(db.heads, key))
      && HeadAt(c.db.heads, hist, req.key, Max(HeadRev(db.heads, req.key), Target(req)))
  {
    hide Decoded, FullFold, Gridded;
    var key, rk := req.key, TargetKey(req);
    assert rk in db.log;
    assert AggregateAgrees(db.log, key, hist[key], GridOf(grid, key.stream));
    assert RevisionAgrees(db.log, key, rk.rev, hist[key][rk.rev]);
    ReadsAgree(db.log, hist, grid, enc, key, rk.rev);
    hide LogAgrees, AggregateAgrees;
    assert RowMatches(db.log[rk], hist[key][rk.rev]);
  }

  /** Re-sent in any order, committed requests add no log row and no intent, and
      leave each head at the maximum of where it was and what was replayed, with
      that revision's exact content. */
  lemma {:induction false} ReplayIsMonotone(
      db: Db, hist: History, grid: Grid, enc: Encodings, reqs: seq<CommitRequest>, now: Time)
    requires LogAgrees(db.log, hist, grid) && OnGrid(enc, grid) && ValidEncodings(enc)
    requires HeadsBehind(db.heads, hist)
    requires forall i :: 0 <= i < |reqs| ==> Resends(hist, reqs[i])
    ensures CommitAll(db, enc, reqs, now).Ok?
    ensures var b := CommitAll(db, enc, reqs, now).value;
      && b.db == db.(heads := b.db.heads)
      && (forall i :: 0 <= i < |b.results| ==> b.results[i].replayed)
      && forall key :: HeadAt(b.db.heads, hist, key, Highest(HeadRev(db.heads, key), key, reqs))
    decreases |reqs|
  {
    hide LogAgrees, CommitOne, Resends, HeadBehind;
    if reqs == [] {
      forall key ensures HeadAt(db.heads, hist, key, HeadRev(db.heads, key)) {
        assert HeadBehind(db.heads, hist, key);
        BehindIsProjection(db.heads, hist, key);
      }
    } else {
      var front, last := reqs[..|reqs| - 1], reqs[|reqs| - 1];
      ReplayIsMonotone(db, hist, grid, enc, front, now);
      var before := CommitAll(db, enc, front, now).value.db;
      assert HeadAt(before.heads, hist, last.key, Highest(HeadRev(db.heads, last.key), last.key, front));
      ProjectionIsBehind(before.heads, hist, last.key, Highest(HeadRev(db.heads, last.key), last.key, front));
      ReplayOne(before, hist, grid, enc, last, now);
      var after := CommitOne(before, enc, last, now).value.db;
      forall key ensures HeadAt(after.heads, hist, key, Highest(HeadRev(db.heads, key), key, reqs)) {
        assert HeadAt(before.heads, hist, key, Highest(HeadRev(db.heads, key), key, front));
        assert key != last.key ==> HeadOf(after.heads, key) == HeadOf(before.heads, key);
      }
    }
  }

  lemma BehindIsProjection(heads: Heads, hist: History, key: Key)
    requires HeadBehind(heads, hist, key)
    ensures HeadAt(heads, hist, key, HeadRev(heads, key))
  {
  }

  lemma ProjectionIsBehind(heads: Heads, hist: History, key: Key, m: int)
    requires HeadAt(heads, hist, key, m)
    ensures HeadBehind(heads, hist, key) && HeadRev(heads, key) == m
  {
  }

  /** Replaying a request for every aggregate's last revision restores every tip. */
  lemma ReplayRestoresTips(
      db: Db, hist: History, grid: Grid, enc: Encodings, reqs: seq<CommitRequest>, now: Time)
    requires LogAgrees(db.log, hist, grid) && OnGrid(enc, grid) && ValidEncodings(enc)
    requires HeadsBehind(db.heads, hist)
    requires forall i :: 0 <= i < |reqs| ==> Resends(hist, reqs[i])
    requires forall key :: key in hist ==>
      exists i :: 0 <= i < |reqs| && reqs[i].key == key && Target(reqs[i]) == |hist[key]| - 1
    ensures CommitAll(db, enc, reqs, now).Ok?
    ensures Agrees(CommitAll(db, enc, reqs, now).value.db, hist, grid)
  {
    hide OnGrid, Resends, HeadsBehind, LogAgrees, CommitAll;
    ReplayIsMonotone(db, hist, grid, enc, reqs, now);
    forall key | key in hist ensures hist[key] != [] { NonEmpty(db.log, hist, grid, key); }
    TipsReached(db.heads, CommitAll(db, enc, reqs, now).value.db.heads, hist, reqs);
  }

  lemma TipsReached(start: Heads, heads: Heads, hist: History, reqs: seq<CommitRequest>)
    requires forall key :: HeadAt(heads, hist, key, Highest(HeadRev(start, key), key, reqs))
    requires forall key :: key in hist ==> hist[key] != []
    requires forall key :: key in hist ==>
      exists i :: 0 <= i < |reqs| && reqs[i].key == key && Target(reqs[i]) == |hist[key]| - 1
    ensures HeadsAgree(heads, hist)
  {
    forall key
      ensures key in heads <==> key in hist
      ensures key in hist ==> heads[key] == ProjectedHead(key, |hist[key]| - 1, hist[key][|hist[key]| - 1])
    {
      assert HeadAt(heads, hist, key, Highest(HeadRev(start, key), key, reqs));
      if key in hist {
        var i :| 0 <= i < |reqs| && reqs[i].key == key && Target(reqs[i]) == |hist[key]| - 1;
        HighestReaches(HeadRev(start, key), key, reqs, i);
      }
    }
  }

  lemma NonEmpty(log: Log, hist: History, grid: Grid, key: Key)
    requires LogAgrees(log, hist, grid) && key in hist
    ensures hist[key] != []
  {
  }

  lemma {:induction false} HighestReaches(start: int, key: Key, reqs: seq<CommitRequest>, i: int)
    requires 0 <= i < |reqs| && reqs[i].key == key
    ensures Highest(start, key, reqs) >= Target(reqs[i])
    decreases |reqs|
  {
    if i < |reqs| - 1 { HighestReaches(start, key, reqs[..|reqs| - 1], i); }
  }

  // ------------------------------------------------------ what a replay accepts

  /** The request names a committed revision with its exact bytes, kind and
      versions, and with metadata that differs at most in the kind of its numbers. */
  predicate Restates(hist: History, req: CommitRequest) {
    && 0 <= Target(req) < |RevsOf(hist, req.key)|
    && var rev := hist[req.key][Target(req)];
    && req.payload == CanonicalBytes(rev.doc)
    && rev.kind == req.kind && rev.schema == req.schema && rev.metaVersion == req.metaVersion
    && NormDoc(rev.meta) == NormDoc(Loads(req.meta))
  }

  /** A planned request is reported replayed exactly when it restates a committed
      revision; so a replay is byte-exact in the payload, but not in metadata. */
  lemma ReplayedIffRestates(db: Db, hist: History, grid: Grid, enc: Encodings, req: CommitRequest, now: Time)
    requires Agrees(db, hist, grid) && OnGrid(enc, grid) && ValidEncodings(enc) && Planned(req)
    ensures Restates(hist, req) <==>
      CommitOne(db, enc, req, now).Ok? && CommitOne(db, enc, req, now).value.result.replayed
  {
    hide CommitOne, Reproducible, InsertIntents, ExpectedHolds, OnGrid, LogAgrees, HeadsAgree,
      Restates, SameRevision, RowAllowed, Planned, NewRow, HeadOf, RecordFingerprint;
    CommitOneFollowsHistory(db, hist, grid, enc, req, now);
    RestatesIsSame(db.log, hist, grid, req);
  }

  lemma RestatesIsSame(log: Log, hist: History, grid: Grid, req: CommitRequest)
    requires LogAgrees(log, hist, grid) && Planned(req)
    ensures Restates(hist, req) <==>
      0 <= Target(req) < |RevsOf(hist, req.key)| && SameRevision(RevsOf(hist, req.key)[Target(req)], req)
  {
    hide LogAgrees, DocEq, NormDoc;
    if 0 <= Target(req) < |RevsOf(hist, req.key)| {
      DocEqIffSameNorm(hist[req.key][Target(req)].meta, Loads(req.meta));
    }
    if 0 <= Target(req) < |RevsOf(hist, req.key)| {
      DigestNamesDocument(log, hist, grid, req.key, Target(req));
    }
  }

  lemma DigestNamesDocument(log: Log, hist: History, grid: Grid, key: Key, r: int)
    requires LogAgrees(log, hist, grid) && 0 <= r < |RevsOf(hist, key)|
    ensures hist[key][r].digest == DigestOf(CanonicalBytes(hist[key][r].doc))
  {
  }
}
