/** In every reachable world log, heads and history agree, and every reported
    revision stays readable. */
module RunAgreement {
  import opened Results
  import opened JsonValues
  import opened Tables
  import opened LogReads
  import opened Commits
  import opened Agreement
  import opened Recovery
  import opened HeadRepair
  import opened Paging
  import opened Replays
  import opened Store
  import opened Runs

  ghost predicate Sound(w: World) {
    ValidEncodings(w.enc) && OnGrid(w.enc, w.grid) && Agrees(w.db, w.hist, w.grid)
  }

  /** A batch keeps the agreement, with the history extended by what it reports. */
  lemma {:induction false} BatchKeepsAgreement(
      db: Db, hist: History, grid: Grid, enc: Encodings, reqs: seq<CommitRequest>, now: Time)
    requires ValidEncodings(enc) && OnGrid(enc, grid) && Agrees(db, hist, grid)
    requires forall i :: 0 <= i < |reqs| ==> Planned(reqs[i])
    requires CommitAll(db, enc, reqs, now).Ok?
    ensures var b := CommitAll(db, enc, reqs, now).value;
      && |b.results| == |reqs|
      && Agrees(b.db, Record(hist, reqs, b.results), grid)
    decreases |reqs|
  {
    hide Agrees, OnGrid, CommitOne, Planned, Judge;
    if reqs != [] {
      var n := |reqs| - 1;
      var front, last := reqs[..n], reqs[n];
      assert forall i :: 0 <= i < n ==> front[i] == reqs[i];
      BatchKeepsAgreement(db, hist, grid, enc, front, now);
      var before := CommitAll(db, enc, front, now).value;
      var b := CommitAll(db, enc, reqs, now).value;
      assert b.results[..n] == before.results;
      OneKeepsAgreement(before.db, Record(hist, front, before.results), grid, enc, last, now);
    }
  }

  lemma OneKeepsAgreement(db: Db, hist: History, grid: Grid, enc: Encodings, req: CommitRequest, now: Time)
    requires ValidEncodings(enc) && OnGrid(enc, grid) && Agrees(db, hist, grid) && Planned(req)
    requires CommitOne(db, enc, req, now).Ok?
    ensures var c := CommitOne(db, enc, req, now).value;
      Agrees(c.db, if c.result.replayed then hist
                   else hist[req.key := RevsOf(hist, req.key) + [RevisionOf(req, c.result.at)]], grid)
  {
    hide Agrees, OnGrid, CommitOne, Planned, Reproducible, ExpectedHolds, SameRevision, RowAllowed, InsertIntents;
    CommitOneFollowsHistory(db, hist, grid, enc, req, now);
  }

  /** Reopening on multiples keeps every written row on the grid. */
  lemma ReopenKeepsSoundness(w: World, enc: Encodings)
    requires Sound(w) && Possible(w, Reopen(enc))
    ensures Sound(AfterReopen(w, enc))
  {
    hide Gridded, RevisionAgrees;
    var grid' := AfterReopen(w, enc).grid;
    forall key | key in w.hist ensures AggregateAgrees(w.db.log, key, w.hist[key], GridOf(grid', key.stream)) {
      assert AggregateAgrees(w.db.log, key, w.hist[key], GridOf(w.grid, key.stream));
      ReopenCoarsens(w.grid, enc, key.stream);
      CoarserGrid(w.db.log, key, |w.hist[key]|, GridOf(w.grid, key.stream), GridOf(grid', key.stream));
    }
    hide AggregateAgrees;
  }

  lemma ReopenCoarsens(grid: Grid, enc: Encodings, stream: string)
    requires ValidEncodings(enc) && GridOf(grid, stream) >= 1
    requires stream in enc && enc[stream].DeltaEncoded? ==> MultipleOf(enc[stream].every, GridOf(grid, stream))
    ensures var g := GridOf(grid, stream);
      var g' := GridOf(grid + map s | s in enc && enc[s].DeltaEncoded? :: enc[s].every, stream);
      g' >= 1 && g' % g == 0
  {
  }

  lemma CoarserGrid(log: Log, key: Key, n: nat, g: nat, g': nat)
    requires Gridded(log, key, n, g) && g' >= 1 && g' % g == 0
    ensures Gridded(log, key, n, g')
  {
    forall r | 0 <= r < n ensures Placed(log, key, r, g') {
      assert Placed(log, key, r, g);
      if PatchAt(log, key, r) { MultipleOfMultiple(g', g, EveryAt(log, key, r)); }
    }
  }

  lemma StepKeepsSoundness(w: World, cfg: Config, e: Event)
    requires Sound(w) && Possible(w, e)
    ensures Sound(Apply(w, cfg, e))
  {
    match e
    case CommitBatch(reqs) => CommitKeepsSoundness(w, cfg, reqs);
    case Reopen(enc) => ReopenKeepsSoundness(w, enc);
    case Rebuild(scope) =>
      RebuildKeepsAgreement(w.db, w.hist, w.grid, scope);
      assert w.db.(heads := w.db.heads) == w.db;
    case _ => OtherStepsKeepTables(w, cfg, e);
  }

  lemma CommitKeepsSoundness(w: World, cfg: Config, reqs: seq<CommitRequest>)
    requires Sound(w) && Possible(w, CommitBatch(reqs))
    ensures Sound(AfterCommit(w, cfg, reqs))
  {
    hide Agrees, OnGrid, Planned;
    if CommitAll(w.db, w.enc, reqs, w.clock).Ok? {
      BatchKeepsAgreement(w.db, w.hist, w.grid, w.enc, reqs, w.clock);
    }
  }

  lemma OtherStepsKeepTables(w: World, cfg: Config, e: Event)
    requires ValidEncodings(w.enc) && Possible(w, e)
    requires !e.CommitBatch? && !e.Reopen? && !e.Rebuild?
    ensures var after := Apply(w, cfg, e);
      && after.db.log == w.db.log && after.db.heads == w.db.heads
      && after.hist == w.hist && after.grid == w.grid && after.enc == w.enc
  {
  }

  lemma StartIsSound(enc: Encodings, clock: Time)
    requires ValidEncodings(enc)
    ensures Sound(Start(enc, clock))
  {
  }

  lemma {:induction false} RunKeepsSoundness(w0: World, cfg: Config, events: seq<Event>, w: World)
    requires Sound(w0) && Reaches(w0, cfg, events, w)
    ensures Sound(w)
    decreases |events|
  {
    if events != [] {
      var front, last := events[..|events| - 1], events[|events| - 1];
      var mid :| Reaches(w0, cfg, front, mid) && ValidEncodings(mid.enc) && Possible(mid, last)
        && w == Apply(mid, cfg, last);
      RunKeepsSoundness(w0, cfg, front, mid);
      StepKeepsSoundness(mid, cfg, last);
    }
  }

  /** Whole-run agreement: after any possible run from an empty store, log, heads
      and reported history agree. */
  lemma EveryRunIsSound(enc: Encodings, clock: Time, cfg: Config, events: seq<Event>, w: World)
    requires ValidEncodings(enc) && Reaches(Start(enc, clock), cfg, events, w)
    ensures Sound(w)
  {
    StartIsSound(enc, clock);
    RunKeepsSoundness(Start(enc, clock), cfg, events, w);
  }

  // ------------------------------------------------------ history only grows

  /** Every reported revision is still there, in place and unchanged. */
  ghost predicate Continues(before: History, after: History) {
    forall key :: RevsOf(before, key) <= RevsOf(after, key)
  }

  lemma {:induction false} RecordContinues(hist: History, reqs: seq<CommitRequest>, results: seq<CommitResult>)
    requires |reqs| == |results|
    ensures Continues(hist, Record(hist, reqs, results))
  {
    if reqs != [] {
      var n := |reqs| - 1;
      RecordContinues(hist, reqs[..n], results[..n]);
    }
  }

  lemma StepContinues(w: World, cfg: Config, e: Event)
    requires ValidEncodings(w.enc) && Possible(w, e)
    ensures Continues(w.hist, Apply(w, cfg, e).hist)
  {
    hide Transact, RebuiltHeads;
    if e.CommitBatch? {
      var r := Transact(w.db, w.enc, cfg.maxBatch, e.reqs, w.clock).1;
      if r.Ok? && |r.value| == |e.reqs| { RecordContinues(w.hist, e.reqs, r.value); }
    }
  }

  /** Committed revisions are immutable: along any run the history only grows. */
  lemma {:induction false} RunContinues(w0: World, cfg: Config, events: seq<Event>, w: World)
    requires Reaches(w0, cfg, events, w)
    ensures Continues(w0.hist, w.hist)
    decreases |events|
  {
    if events != [] {
      var front, last := events[..|events| - 1], events[|events| - 1];
      var mid :| Reaches(w0, cfg, front, mid) && ValidEncodings(mid.enc) && Possible(mid, last)
        && w == Apply(mid, cfg, last);
      RunContinues(w0, cfg, front, mid);
      StepContinues(mid, cfg, last);
    }
  }

  /** A batch of one acceptable request, as a step of the world. */
  lemma CommitsAlone(w: World, cfg: Config, req: CommitRequest)
    requires Sound(w) && cfg.maxBatch >= 1 && Planned(req)
    requires Judge(w.hist, w.enc, w.db.intents, req, w.clock).Accepted?
    ensures Possible(w, CommitBatch([req]))
    ensures var after := AfterCommit(w, cfg, [req]);
      && CommitOne(w.db, w.enc, req, w.clock).Ok? && !CommitOne(w.db, w.enc, req, w.clock).value.result.replayed
      && after.db == CommitOne(w.db, w.enc, req, w.clock).value.db
      && Sound(after)
      && after.hist == w.hist[req.key := RevsOf(w.hist, req.key) + [RevisionOf(req, w.clock)]]
      && after.db.log == w.db.log[TargetKey(req) := NewRow(w.enc, HeadOf(w.db.heads, req.key), req, w.clock)]
      && InsertIntents(w.db.intents, req.intents, w.clock) == Ok(after.db.intents)
      && after.db.ledger == RecordFingerprint(w.db.ledger, req, w.clock)
      && after.clock == w.clock && after.sessions == w.sessions && after.enc == w.enc && after.grid == w.grid
  {
    hide Agrees, OnGrid, CommitOne, NewRow, InsertIntents, Planned, CommitAll, Reproducible;
    CommitOneFollowsHistory(w.db, w.hist, w.grid, w.enc, req, w.clock);
    SingleTransaction(w.db, w.enc, cfg.maxBatch, req, w.clock);
    var results := [CommitOne(w.db, w.enc, req, w.clock).value.result];
    assert Record(w.hist, [req], results)
        == w.hist[req.key := RevsOf(w.hist, req.key) + [RevisionOf(req, w.clock)]] by {
      assert [req][..0] == [] && results[..0] == [];
    }
    CommitKeepsSoundness(w, cfg, [req]);
  }

  // ------------------------------------------------------------- chronology

  /** Commit times never decrease along the revisions, and none is in the future. */
  predicate InOrder(revs: seq<Revision>, clock: Time) {
    && (forall a, b :: 0 <= a < b < |revs| ==> revs[a].at <= revs[b].at)
    && forall a :: 0 <= a < |revs| ==> revs[a].at <= clock
  }

  ghost predicate Chronological(hist: History, clock: Time) {
    forall key :: InOrder(RevsOf(hist, key), clock)
  }

  lemma NextInOrder(revs: seq<Revision>, rev: Revision, now: Time)
    requires InOrder(revs, now) && rev.at == now
    ensures InOrder(revs + [rev], now)
  {
  }

  lemma {:induction false} RecordInOrder(hist: History, reqs: seq<CommitRequest>, results: seq<CommitResult>, now: Time)
    requires |reqs| == |results| && forall i :: 0 <= i < |results| ==> results[i].at == now
    requires Chronological(hist, now)
    ensures Chronological(Record(hist, reqs, results), now)
  {
    if reqs != [] {
      var n := |reqs| - 1;
      var h := Record(hist, reqs[..n], results[..n]);
      RecordInOrder(hist, reqs[..n], results[..n], now);
      hide InOrder;
      forall key ensures InOrder(RevsOf(Record(hist, reqs, results), key), now) {
        assert InOrder(RevsOf(h, key), now);
        NextInOrder(RevsOf(h, key), RevisionOf(reqs[n], now), now);
      }
    }
  }

  lemma StepInOrder(w: World, cfg: Config, e: Event)
    requires ValidEncodings(w.enc) && Possible(w, e) && Chronological(w.hist, w.clock)
    ensures Chronological(Apply(w, cfg, e).hist, Apply(w, cfg, e).clock)
  {
    hide Record, CommitAll, RebuiltHeads;
    if e.CommitBatch? {
      OneResultEach(w.db, w.enc, e.reqs, w.clock);
      var r := Transact(w.db, w.enc, cfg.maxBatch, e.reqs, w.clock).1;
      if r.Ok? { RecordInOrder(w.hist, e.reqs, r.value, w.clock); }
    } else {
      forall key ensures InOrder(RevsOf(w.hist, key), Apply(w, cfg, e).clock) {
        assert InOrder(RevsOf(w.hist, key), w.clock);
      }
    }
  }

  /** `committed_at` is non-decreasing in revision order, in every run. */
  lemma {:induction false} EveryRunIsChronological(
      enc: Encodings, clock: Time, cfg: Config, events: seq<Event>, w: World)
    requires ValidEncodings(enc) && Reaches(Start(enc, clock), cfg, events, w)
    ensures Chronological(w.hist, w.clock)
    decreases |events|
  {
    if events != [] {
      var front, last := events[..|events| - 1], events[|events| - 1];
      var mid :| Reaches(Start(enc, clock), cfg, front, mid) && ValidEncodings(mid.enc) && Possible(mid, last)
        && w == Apply(mid, cfg, last);
      EveryRunIsChronological(enc, clock, cfg, front, mid);
      StepInOrder(mid, cfg, last);
    }
  }

  // --------------------------------------------------------------- read back

  /** In a sound world a reported revision reads back by every route: the fast
      read, the row's own read and the full fold give the reported document, and
      the stored revision carries every reported column. */
  lemma RevisionReadsBack(w: World, key: Key, r: int)
    requires Sound(w) && 0 <= r < |RevsOf(w.hist, key)|
    ensures RevisionRead(w.db.log, w.enc, key, r) == Ok(Some(StoredOf(key, r, w.hist[key][r])))
    ensures DecodedByRow(w.db.log, key, r) == Ok(w.hist[key][r].doc)
    ensures FullFold(w.db.log, key, r) == w.hist[key][r].doc
    ensures w.hist[key][r].digest == DigestOf(CanonicalBytes(w.hist[key][r].doc))
    ensures HeadOf(w.db.heads, key) == Some(ProjectedHead(key, |w.hist[key]| - 1, w.hist[key][|w.hist[key]| - 1]))
  {
    hide FullFold, Decoded, DecodedByRow, LogAgrees, HeadsAgree, OnGrid;
    ReadsAgree(w.db.log, w.hist, w.grid, w.enc, key, r);
    RowReadsBack(w.db.log, w.hist, w.grid, w.enc, key, r);
    TablesAt(w.db, w.hist, w.grid, key, r);
    DigestNamesDocument(w.db.log, w.hist, w.grid, key, r);
  }

  /** What a read by revision answers in a sound world, for every number. */
  ghost predicate AnswersRead(w: World, key: Key, r: int)
    requires ValidEncodings(w.enc)
  {
    RevisionRead(w.db.log, w.enc, key, r)
    == if r < 0 then Err(UsageError)
       else if r < |RevsOf(w.hist, key)| then Ok(Some(StoredOf(key, r, w.hist[key][r]))) else Ok(None)
  }

  /** A negative revision is misuse, a reported one is returned, any other reads as
      nothing. */
  lemma EveryReadAnswers(w: World, key: Key, r: int)
    requires Sound(w)
    ensures AnswersRead(w, key, r)
  {
    hide Decoded, LogAgrees, HeadsAgree, OnGrid;
    TablesAt(w.db, w.hist, w.grid, key, r);
    if 0 <= r < |RevsOf(w.hist, key)| { RowReadsBack(w.db.log, w.hist, w.grid, w.enc, key, r); }
  }

  /** In a sound world history pages concatenate to everything reported, verify is
      clean, and a rebuild changes nothing. */
  lemma WorldReadsBack(w: World, key: Key, limit: nat, scope: Scope)
    requires Sound(w) && limit >= 1
    ensures HistoryScan(w.db.log, w.enc, key, -1, limit) == Ok(StoredSlice(w.hist, key, 0, |RevsOf(w.hist, key)|))
    ensures VerifyReportOf(w.db.log, w.db.heads, scope).mismatches == 0
    ensures RebuiltHeads(w.db.log, w.db.heads, scope) == w.db.heads
  {
    hide HistoryScan, VerifyReportOf, RebuiltHeads, OnGrid, LogAgrees, HeadsAgree;
    HistoryPagesConcatenate(w.db.log, w.hist, w.grid, w.enc, key, -1, limit);
    AgreeingVerifiesClean(w.db, w.hist, w.grid, scope);
    RebuildKeepsAgreement(w.db, w.hist, w.grid, scope);
  }

  /** Whole-run agreement as a reader sees it, in every reachable world. */
  lemma EveryRunReadsBack(
      enc: Encodings, clock: Time, cfg: Config, events: seq<Event>, w: World, key: Key, r: int, limit: nat,
      scope: Scope)
    requires ValidEncodings(enc) && Reaches(Start(enc, clock), cfg, events, w)
    requires 0 <= r < |RevsOf(w.hist, key)| && limit >= 1
    ensures ValidEncodings(w.enc)
    ensures RevisionRead(w.db.log, w.enc, key, r) == Ok(Some(StoredOf(key, r, w.hist[key][r])))
    ensures forall q :: AnswersRead(w, key, q)
    ensures DecodedByRow(w.db.log, key, r) == Ok(w.hist[key][r].doc)
    ensures FullFold(w.db.log, key, r) == w.hist[key][r].doc
    ensures w.hist[key][r].digest == DigestOf(CanonicalBytes(w.hist[key][r].doc))
    ensures HeadOf(w.db.heads, key) == Some(ProjectedHead(key, |w.hist[key]| - 1, w.hist[key][|w.hist[key]| - 1]))
    ensures HistoryScan(w.db.log, w.enc, key, -1, limit) == Ok(StoredSlice(w.hist, key, 0, |w.hist[key]|))
    ensures VerifyReportOf(w.db.log, w.db.heads, scope).mismatches == 0
    ensures RebuiltHeads(w.db.log, w.db.heads, scope) == w.db.heads
  {
    hide Reaches, FullFold, Decoded, DecodedByRow, RevisionRead, HistoryScan, VerifyReportOf, RebuiltHeads,
      OnGrid, Agrees;
    EveryRunIsSound(enc, clock, cfg, events, w);
    RevisionReadsBack(w, key, r);
    forall q ensures AnswersRead(w, key, q) { EveryReadAnswers(w, key, q); }
    WorldReadsBack(w, key, limit, scope);
  }
}
