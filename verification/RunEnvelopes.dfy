/** In every run: a planned write on the current revision goes through, and the
    envelope dispatched inline is the one any later worker rebuilds from the log. */
module RunEnvelopes {
  import opened Results
  import opened JsonValues
  import opened DeltaEncoding
  import opened Tables
  import opened LogReads
  import opened Commits
  import opened Agreement
  import opened Paging
  import opened Store
  import opened Planning
  import opened Envelopes
  import opened Runs
  import opened RunAgreement
  import opened RunDelivery

  // ------------------------------------------------ what a commit leaves behind

  /** A request reported committed and not replayed is the revision recorded at
      its target. */
  ghost predicate Recorded(hist: History, req: CommitRequest, now: Time) {
    0 <= Target(req) < |RevsOf(hist, req.key)| && hist[req.key][Target(req)] == RevisionOf(req, now)
  }

  lemma OneRecords(db: Db, hist: History, grid: Grid, enc: Encodings, req: CommitRequest, now: Time)
    requires ValidEncodings(enc) && OnGrid(enc, grid) && Agrees(db, hist, grid) && Planned(req)
    requires CommitOne(db, enc, req, now).Ok? && !CommitOne(db, enc, req, now).value.result.replayed
    ensures Recorded(hist[req.key := RevsOf(hist, req.key) + [RevisionOf(req, now)]], req, now)
  {
    hide Agrees, OnGrid, CommitOne, Planned, Reproducible, SameRevision, RowAllowed, InsertIntents;
    CommitOneFollowsHistory(db, hist, grid, enc, req, now);
  }

  lemma {:induction false} BatchRecords(
      db: Db, hist: History, grid: Grid, enc: Encodings, reqs: seq<CommitRequest>, now: Time, i: nat)
    requires ValidEncodings(enc) && OnGrid(enc, grid) && Agrees(db, hist, grid)
    requires forall k :: 0 <= k < |reqs| ==> Planned(reqs[k])
    requires CommitAll(db, enc, reqs, now).Ok? && i < |reqs|
    ensures var results := CommitAll(db, enc, reqs, now).value.results;
      |results| == |reqs| && (!results[i].replayed ==> Recorded(Record(hist, reqs, results), reqs[i], now))
    decreases |reqs|
  {
    hide Agrees, OnGrid, CommitOne, Planned, RevisionOf, Recorded;
    var n := |reqs| - 1;
    var front, last := reqs[..n], reqs[n];
    assert forall k :: 0 <= k < n ==> front[k] == reqs[k];
    BatchKeepsAgreement(db, hist, grid, enc, front, now);
    var before, results := CommitAll(db, enc, front, now).value, CommitAll(db, enc, reqs, now).value.results;
    assert results[..n] == before.results;
    var h := Record(hist, front, before.results);
    ResultNamesTarget(before.db, enc, last, now);
    if i == n {
      if !results[i].replayed { OneRecords(before.db, h, grid, enc, last, now); }
    } else {
      BatchRecords(db, hist, grid, enc, front, now, i);
      if !results[i].replayed { StaysRecorded(h, reqs[i], now, last.key, RevisionOf(last, now)); }
    }
  }

  lemma StaysRecorded(hist: History, req: CommitRequest, now: Time, key: Key, rev: Revision)
    requires Recorded(hist, req, now)
    ensures Recorded(hist[key := RevsOf(hist, key) + [rev]], req, now)
  {
  }

  // ---------------------------------------------------------- envelopes agree

  /** The state the write was planned on is, canonically, the revision before it. */
  predicate BeforeIsPrevious<T(!new), M(!new)>(app: App<T, M>, hist: History, req: CommitRequest, before: Option<T>) {
    match before
    case None => Target(req) == 0
    case Some(b) =>
      0 < Target(req) <= |RevsOf(hist, req.key)| && app.state.dump(b) == hist[req.key][Target(req) - 1].doc
  }

  predicate AtDeclaredVersions<T(!new), M(!new)>(app: App<T, M>, req: CommitRequest) {
    req.schema == app.state.version && req.metaVersion == app.meta.version
  }

  /** The worker's envelope of a recorded request, in any world whose history has it. */
  lemma DurableIsInline<T(!new), M(!new)>(
      app: App<T, M>, w: World, req: CommitRequest, now: Time, result: CommitResult, before: Option<T>)
    requires app.Valid() && Sound(w) && AtDeclaredVersions(app, req)
    requires Recorded(w.hist, req, now) && BeforeIsPrevious(app, w.hist, req, before)
    requires result.rev == Target(req) && result.at == now
    ensures app.Serves(req.schema, req.metaVersion) && ServedAt(app, w.db.log, RowKey(req.key, Target(req)))
    ensures DurableNotice(app, w.db.log, w.enc, req.key, Target(req)) == InlineNotice(app, req, result, before)
  {
    hide Hydrate, Decoded, LogAgrees, HeadsAgree, OnGrid, App.Serves;
    DeclaredServes(app);
    var key, rev := req.key, Target(req);
    RowReadsBack(w.db.log, w.hist, w.grid, w.enc, key, rev);
    assert RevisionRead(w.db.log, w.enc, key, rev) == Ok(Some(StoredFromRequest(req, result)));
    if rev > 0 {
      RowReadsBack(w.db.log, w.hist, w.grid, w.enc, key, rev - 1);
    }
  }

  /** Inline and durable envelopes agree: for a request of any batch reported
      committed and not replayed, whose base is the genuinely stored previous
      revision, the envelope a worker rebuilds in any later world equals the one
      dispatched inline, in every field, or both fail to hydrate alike. */
  lemma EnvelopesAgree<T(!new), M(!new)>(
      app: App<T, M>, w: World, cfg: Config, reqs: seq<CommitRequest>, i: nat, before: Option<T>,
      later: seq<Event>, end: World)
    requires app.Valid() && Sound(w) && Possible(w, CommitBatch(reqs))
    requires |reqs| <= cfg.maxBatch && CommitAll(w.db, w.enc, reqs, w.clock).Ok?
    requires i < |reqs| && AtDeclaredVersions(app, reqs[i])
    requires var results := CommitAll(w.db, w.enc, reqs, w.clock).value.results;
      && |results| == |reqs| && !results[i].replayed
    requires BeforeIsPrevious(app, AfterCommit(w, cfg, reqs).hist, reqs[i], before)
    requires Reaches(AfterCommit(w, cfg, reqs), cfg, later, end)
    ensures ValidEncodings(end.enc) && app.Serves(reqs[i].schema, reqs[i].metaVersion)
    ensures ServedAt(app, end.db.log, RowKey(reqs[i].key, Target(reqs[i])))
    ensures DurableNotice(app, end.db.log, end.enc, reqs[i].key, Target(reqs[i]))
         == InlineNotice(app, reqs[i], CommitAll(w.db, w.enc, reqs, w.clock).value.results[i], before)
  {
    hide DurableNotice, InlineNotice, CommitAll, Record, Reaches, Planned;
    var after := AfterCommit(w, cfg, reqs);
    CommitKeepsSoundness(w, cfg, reqs);
    RunKeepsSoundness(after, cfg, later, end);
    BatchRecords(w.db, w.hist, w.grid, w.enc, reqs, w.clock, i);
    OneResultEach(w.db, w.enc, reqs, w.clock);
    RunContinues(after, cfg, later, end);
    var results := CommitAll(w.db, w.enc, reqs, w.clock).value.results;
    assert after.hist == Record(w.hist, reqs, results);
    StillRecorded(app, after.hist, end.hist, reqs[i], w.clock, before);
    DurableIsInline(app, end, reqs[i], w.clock, results[i], before);
  }

  lemma StillRecorded<T(!new), M(!new)>(
      app: App<T, M>, hist: History, later: History, req: CommitRequest, now: Time, before: Option<T>)
    requires Continues(hist, later) && Recorded(hist, req, now) && BeforeIsPrevious(app, hist, req, before)
    ensures Recorded(later, req, now) && BeforeIsPrevious(app, later, req, before)
  {
  }

  /** A base read from the store at the declared versions is canonically what is
      stored: the hypothesis above holds for writes planned on it. */
  lemma ReadBaseIsPrevious<T(!new), M(!new)>(app: App<T, M>, w: World, id: nat, rev: nat, state: T, meta: Option<M>)
    requires app.Valid() && Sound(w) && rev < |RevsOf(w.hist, Key(app.stream, id))|
    requires var stored := w.hist[Key(app.stream, id)][rev];
      && stored.schema == app.state.version && stored.metaVersion == app.meta.version
      && app.state.Stable(stored.doc) && app.meta.Stable(stored.meta)
    ensures var s := StoredOf(Key(app.stream, id), rev, w.hist[Key(app.stream, id)][rev]);
      && RevisionRead(w.db.log, w.enc, Key(app.stream, id), rev) == Ok(Some(s))
      && app.Serves(s.schema, s.metaVersion) && Hydrate(app, s).Ok?
      && var base := Hydrate(app, s).value;
         && BeforeIsPrevious(app, w.hist, PlanOnto(app, base, state, meta), Some(base.state))
         && AtDeclaredVersions(app, PlanOnto(app, base, state, meta))
  {
    hide LogAgrees, HeadsAgree, Decoded, OnGrid, App.Serves;
    DeclaredServes(app);
    RowReadsBack(w.db.log, w.hist, w.grid, w.enc, Key(app.stream, id), rev);
  }

  /** With idempotent adapters the inline envelope of a planned write always
      exists, and carries the planned state and metadata in canonical form. */
  lemma PlannedEnvelopeExists<T(!new), M(!new)>(
      app: App<T, M>, req: CommitRequest, result: CommitResult, before: Option<T>, state: T, meta: M)
    requires app.Valid() && app.state.Idempotent() && app.meta.Idempotent() && AtDeclaredVersions(app, req)
    requires req.payload == CanonicalBytes(app.state.dump(state)) && req.meta == CanonicalBytes(app.meta.dump(meta))
    ensures app.Serves(req.schema, req.metaVersion) && InlineNotice(app, req, result, before).Ok?
    ensures var n := InlineNotice(app, req, result, before).value;
      && n.kind == req.kind && n.revision.rev == result.rev && n.revision.at == result.at
      && n.revision.key == req.key && n.revision.rid == RowKey(req.key, result.rev) && n.revision.digest == req.digest
      && app.state.dump(n.revision.state) == app.state.dump(state)
      && app.meta.dump(n.revision.meta) == app.meta.dump(meta)
      && n.changed == (match before
                       case None => app.state.dump(state).Keys
                       case Some(b) => ChangedKeys(app.state.dump(b), app.state.dump(state)))
  {
    DeclaredServes(app);
  }

  // ------------------------------------------------------ planned writes succeed

  /** The delta codec would lose a change that Python equality cannot see. */
  predicate Hides<T(!new), M(!new)>(app: App<T, M>, w: World, key: Key, state: T)
    requires ValidEncodings(w.enc)
  {
    var revs := RevsOf(w.hist, key);
    && revs != []
    && EncodingFor(w.enc, app.stream).DeltaEncoded?
    && |revs| % EncodingFor(w.enc, app.stream).every != 0
    && HiddenChange(revs[|revs| - 1].doc, app.state.dump(state))
  }

  /** In every reachable world a planned create of a new aggregate, or a planned
      change of an aggregate's last revision, commits, unless it would be stored
      as a patch that hides a change; then it is refused with EncodingError. */
  lemma PlannedWriteSucceeds<T(!new), M(!new)>(
      app: App<T, M>, enc: Encodings, clock: Time, cfg: Config, events: seq<Event>, w: World,
      id: nat, base: Option<Revised<T, M>>, state: T, meta: Option<M>)
    requires app.Valid() && ValidEncodings(enc) && Reaches(Start(enc, clock), cfg, events, w)
    requires forall i :: 0 <= i < |app.subscriptions| ==>
      app.subscriptions[i].delivery.OutboxDelivery? ==> app.subscriptions[i].delivery.queue != ""
    requires var revs := RevsOf(w.hist, Key(app.stream, id));
      match base
      case None => revs == []
      case Some(b) => revs != [] && b.key.id == id && b.rev == |revs| - 1
    ensures ValidEncodings(w.enc)
    ensures var req := if base.None? then PlanCreate(app, id, state, meta) else PlanOnto(app, base.value, state, meta);
      && Possible(w, CommitBatch([req]))
      && (Hides(app, w, req.key, state) <==> CommitOne(w.db, w.enc, req, w.clock) == Err(EncodingError))
      && (!Hides(app, w, req.key, state) <==> CommitOne(w.db, w.enc, req, w.clock).Ok?)
  {
    hide CommitOne, Reaches, LogAgrees, HeadsAgree, OnGrid, Planned, RowAllowed, HiddenChange, InsertIntents;
    var key := Key(app.stream, id);
    var req := if base.None? then PlanCreate(app, id, state, meta) else PlanOnto(app, base.value, state, meta);
    EveryRunIsSound(enc, clock, cfg, events, w);
    EveryRunConserves(enc, clock, cfg, events, w);
    if base.Some? {
      ChangePlanIsAdmissible(app, base.value, state, meta);
    } else {
      CreatePlanIsAdmissible(app, id, state, meta);
    }
    var n := |RevsOf(w.hist, key)|;
    assert TargetKey(req) == RowKey(key, n);
    TablesAt(w.db, w.hist, w.grid, key, n);
    forall ik | ik in w.db.intents ensures ik.rid != RowKey(key, n) { assert ik in w.created; }
    OwedIntentsInsert(app, w.db.intents, req.kind, RowKey(key, n), w.clock);
    ValidCommitRefusedIffHidden(w.db, w.hist, w.grid, w.enc, req, w.clock);
  }

  // ------------------------------------------------------- read, plan, commit

  /** The last revision of `key` was planned at the declared versions. */
  ghost predicate PlannedTip<T(!new), M(!new)>(app: App<T, M>, hist: History, key: Key) {
    RevsOf(hist, key) != []
    && var tip := hist[key][|hist[key]| - 1];
    && tip.schema == app.state.version && tip.metaVersion == app.meta.version
    && (exists x: T :: tip.doc == app.state.dump(x)) && (exists y: M :: tip.meta == app.meta.dump(y))
  }

  function MetaFor<T(!new), M(!new)>(base: Revised<T, M>, meta: Option<M>): M {
    if meta.Some? then meta.value else base.meta
  }

  /** Reading the aggregate's last revision gives `base`. */
  ghost predicate ReadsTip<T(!new), M(!new)>(app: App<T, M>, w: World, key: Key, base: Revised<T, M>)
    requires ValidEncodings(w.enc) && app.Valid()
  {
    match RevisionRead(w.db.log, w.enc, key, |RevsOf(w.hist, key)| - 1)
    case Ok(Some(s)) => app.Serves(s.schema, s.metaVersion) && Hydrate(app, s) == Ok(base)
    case _ => false
  }

  /** `get` without a revision, which reads the head row, gives `base`. */
  ghost predicate GetsHead<T(!new), M(!new)>(app: App<T, M>, w: World, key: Key, base: Revised<T, M>) {
    && key in w.db.heads
    && var s := StoredFromHead(key, w.db.heads[key]);
    && app.Serves(s.schema, s.metaVersion) && Hydrate(app, s) == Ok(base)
  }

  /** Reading the head row and reading the last revision give the same base. */
  lemma GetIsTipRead<T(!new), M(!new)>(app: App<T, M>, w: World, key: Key, base: Revised<T, M>)
    requires app.Valid() && Sound(w) && RevsOf(w.hist, key) != []
    ensures GetsHead(app, w, key, base) <==> ReadsTip(app, w, key, base)
  {
    hide LogAgrees, OnGrid, Decoded, App.Serves;
    HeadReadsTip(w.db.heads, w.hist, key);
    RowReadsBack(w.db.log, w.hist, w.grid, w.enc, key, |w.hist[key]| - 1);
  }

  /** Reading the tip gives a base, and a change planned on it commits. */
  lemma ReadBaseCommits<T(!new), M(!new)>(
      app: App<T, M>, enc: Encodings, clock: Time, cfg: Config, events: seq<Event>, w: World,
      id: nat, state: T, meta: Option<M>) returns (base: Revised<T, M>)
    requires app.Valid() && app.state.Idempotent() && app.meta.Idempotent()
    requires ValidEncodings(enc) && Reaches(Start(enc, clock), cfg, events, w) && cfg.maxBatch >= 1
    requires forall i :: 0 <= i < |app.subscriptions| ==>
      app.subscriptions[i].delivery.OutboxDelivery? ==> app.subscriptions[i].delivery.queue != ""
    requires PlannedTip(app, w.hist, Key(app.stream, id))
    requires ValidEncodings(w.enc) && !Hides(app, w, Key(app.stream, id), state)
    ensures Sound(w)
    ensures ReadsTip(app, w, Key(app.stream, id), base)
    ensures base.key == Key(app.stream, id) && base.rev == |RevsOf(w.hist, base.key)| - 1
    ensures var req := PlanOnto(app, base, state, meta);
      && AtDeclaredVersions(app, req) && BeforeIsPrevious(app, w.hist, req, Some(base.state))
      && Planned(req) && Judge(w.hist, w.enc, w.db.intents, req, w.clock).Accepted?
  {
    hide CommitOne, Reaches, Agrees, OnGrid, Planned, HiddenChange, Judge, Hides, BeforeIsPrevious;
    EveryRunIsSound(enc, clock, cfg, events, w);
    base := ReadTip(app, w, id, state, meta);
    hide ReadsTip, PlannedTip;
    var req := PlanOnto(app, base, state, meta);
    PlannedWriteSucceeds(app, enc, clock, cfg, events, w, id, Some(base), state, meta);
    ChangePlanIsAdmissible(app, base, state, meta);
    CommitOneFollowsHistory(w.db, w.hist, w.grid, w.enc, req, w.clock);
    NextIsNoReplay(w, req);
  }

  lemma ReadTip<T(!new), M(!new)>(app: App<T, M>, w: World, id: nat, state: T, meta: Option<M>)
      returns (base: Revised<T, M>)
    requires app.Valid() && app.state.Idempotent() && app.meta.Idempotent() && Sound(w)
    requires PlannedTip(app, w.hist, Key(app.stream, id))
    ensures ReadsTip(app, w, Key(app.stream, id), base)
    ensures base.key == Key(app.stream, id) && base.rev == |RevsOf(w.hist, base.key)| - 1
    ensures AtDeclaredVersions(app, PlanOnto(app, base, state, meta))
    ensures BeforeIsPrevious(app, w.hist, PlanOnto(app, base, state, meta), Some(base.state))
  {
    hide Agrees, OnGrid, Hydrate, RevisionRead, BeforeIsPrevious;
    var key := Key(app.stream, id);
    var tip := |w.hist[key]| - 1;
    TipIsStable(app, w.hist, key);
    ReadBaseIsPrevious(app, w, id, tip, state, meta);
    base := Hydrate(app, StoredOf(key, tip, w.hist[key][tip])).value;
    HydratedIsAt(app, StoredOf(key, tip, w.hist[key][tip]));
  }

  lemma TipIsStable<T(!new), M(!new)>(app: App<T, M>, hist: History, key: Key)
    requires app.state.Idempotent() && app.meta.Idempotent() && PlannedTip(app, hist, key)
    ensures app.state.Stable(hist[key][|hist[key]| - 1].doc) && app.meta.Stable(hist[key][|hist[key]| - 1].meta)
  {
  }

  lemma HydratedIsAt<T(!new), M(!new)>(app: App<T, M>, s: StoredRevision)
    requires app.Valid() && app.Serves(s.schema, s.metaVersion) && Hydrate(app, s).Ok?
    ensures var base := Hydrate(app, s).value; base.key == s.key && base.rev == s.rev
  {
  }

  lemma NextIsNoReplay(w: World, req: CommitRequest)
    requires ValidEncodings(w.enc) && Target(req) == |RevsOf(w.hist, req.key)|
    ensures Judge(w.hist, w.enc, w.db.intents, req, w.clock) != Replayed
  {
  }

  /** The whole path of a change.  In any reachable world, get the last state of an
      aggregate, through its head row or its last revision, plan a new state on it,
      commit it: it is accepted (unless its patch would hide a change), and in every
      later world a worker rebuilds from the log the envelope that was dispatched
      inline, with the planned state and metadata, the next revision, the commit's
      time, and exactly the keys that differ from the state that was read. */
  lemma ReadPlanCommitRebuild<T(!new), M(!new)>(
      app: App<T, M>, enc: Encodings, clock: Time, cfg: Config, events: seq<Event>, w: World,
      id: nat, state: T, meta: Option<M>, later: seq<Event>, end: World, base: Revised<T, M>)
    requires app.Valid() && app.state.Idempotent() && app.meta.Idempotent()
    requires ValidEncodings(enc) && Reaches(Start(enc, clock), cfg, events, w) && cfg.maxBatch >= 1
    requires forall i :: 0 <= i < |app.subscriptions| ==>
      app.subscriptions[i].delivery.OutboxDelivery? ==> app.subscriptions[i].delivery.queue != ""
    requires PlannedTip(app, w.hist, Key(app.stream, id))
    requires ValidEncodings(w.enc) && !Hides(app, w, Key(app.stream, id), state)
    requires ReadsTip(app, w, Key(app.stream, id), base) || GetsHead(app, w, Key(app.stream, id), base)
    requires Reaches(AfterCommit(w, cfg, [PlanOnto(app, base, state, meta)]), cfg, later, end)
    ensures CommitOne(w.db, w.enc, PlanOnto(app, base, state, meta), w.clock).Ok?
    ensures ValidEncodings(end.enc) && app.Serves(app.state.version, app.meta.version)
    ensures ServedAt(app, end.db.log, RowKey(Key(app.stream, id), base.rev + 1))
    ensures var notice := DurableNotice(app, end.db.log, end.enc, Key(app.stream, id), base.rev + 1);
      var req := PlanOnto(app, base, state, meta);
      && notice == InlineNotice(app, req, CommitResult(req.key, base.rev + 1, w.clock, false), Some(base.state))
      && notice.Ok?
      && var n := notice.value;
         && n.kind == Kind.Change && n.revision.rev == base.rev + 1 && n.revision.at == w.clock
         && app.state.dump(n.revision.state) == app.state.dump(state)
         && app.meta.dump(n.revision.meta) == app.meta.dump(MetaFor(base, meta))
         && n.revision.digest == DigestOf(CanonicalBytes(app.state.dump(state)))
         && n.changed == ChangedKeys(app.state.dump(base.state), app.state.dump(state))
    ensures StagesPlan(app, Kind.Change, RowKey(Key(app.stream, id), base.rev + 1), w.db,
                       AfterCommit(w, cfg, [PlanOnto(app, base, state, meta)]).db, w.clock)
  {
    hide CommitOne, CommitAll, Reaches, Agrees, OnGrid, Planned, Judge, Hides, Hydrate, RevisionRead, PlannedTip;
    hide AfterCommit, DurableNotice, InlineNotice, BeforeIsPrevious, GetsHead;
    hide StagesPlan, InsertIntents, RecordFingerprint;
    TipExists(app, w.hist, Key(app.stream, id));
    EveryRunIsSound(enc, clock, cfg, events, w);
    GetIsTipRead(app, w, Key(app.stream, id), base);
    var read := ReadBaseCommits(app, enc, clock, cfg, events, w, id, state, meta);
    var req := PlanOnto(app, base, state, meta);
    CommitsAlone(w, cfg, req);
    SingleTransaction(w.db, w.enc, cfg.maxBatch, req, w.clock);
    ResultNamesTarget(w.db, w.enc, req, w.clock);
    BaseStaysPrevious(app, w.hist, AfterCommit(w, cfg, [req]).hist, req, base.state, w.clock);
    BatchOfOne(w, cfg, req);
    EnvelopesAgree(app, w, cfg, [req], 0, Some(base.state), later, end);
    PlannedEnvelopeExists(app, req, CommitResult(req.key, base.rev + 1, w.clock, false), Some(base.state), state,
                          MetaFor(base, meta));
    ChangeIsStaged(app, base, state, meta, w.db, AfterCommit(w, cfg, [req]).db, w.clock);
  }

  // ------------------------------------------------------ what a plan stages

  /** A commit of one planned request adds to the queue exactly one intent for each
      outbox subscription to its stream and kind, due at once on that subscription's
      queue, changes no other, and records the application's fingerprint unless the
      schema version has one already. */
  ghost predicate StagesPlan<T(!new), M(!new)>(
      app: App<T, M>, kind: Kind, rid: RowKey, before: Db, after: Db, now: Time)
  {
    && (forall ik :: ik in after.intents && ik !in before.intents <==>
          exists s :: s in app.subscriptions && s.stream == app.stream && kind in s.kinds && s.delivery.OutboxDelivery?
                   && ik == IntentKey(s.id, rid))
    && (forall s :: s in app.subscriptions && s.stream == app.stream && kind in s.kinds
                    && s.delivery.OutboxDelivery? ==>
          && IntentKey(s.id, rid) in after.intents
          && after.intents[IntentKey(s.id, rid)] == Intent(s.delivery.queue, Pending, 0, now, None, None, now))
    && (forall ik :: ik in before.intents ==> ik in after.intents && after.intents[ik] == before.intents[ik])
    && after.ledger == (if (app.stream, app.state.version) in before.ledger then before.ledger
                        else before.ledger[(app.stream, app.state.version) := Fingerprint(app.fingerprint, now)])
  }

  lemma PlanIsStaged<T(!new), M(!new)>(
      app: App<T, M>, req: CommitRequest, kind: Kind, rid: RowKey, before: Db, after: Db, now: Time)
    requires InsertIntents(before.intents, req.intents, now) == Ok(after.intents)
    requires after.ledger == RecordFingerprint(before.ledger, req, now)
    requires req.key.stream == app.stream && req.schema == app.state.version && req.fingerprint == app.fingerprint
    requires forall ir :: ir in req.intents <==>
      exists s :: s in app.subscriptions && s.stream == app.stream && kind in s.kinds && s.delivery.OutboxDelivery?
               && ir == IntentRequest(s.id, rid, s.delivery.queue)
    ensures StagesPlan(app, kind, rid, before, after, now)
  {
    hide InsertIntents;
    InsertAddsFresh(before.intents, req.intents, now);
    forall s | s in app.subscriptions && s.stream == app.stream && kind in s.kinds && s.delivery.OutboxDelivery?
      ensures IntentKey(s.id, rid) in after.intents && IntentKey(s.id, rid) !in before.intents
      ensures after.intents[IntentKey(s.id, rid)] == Intent(s.delivery.queue, Pending, 0, now, None, None, now)
    {
      assert IntentRequest(s.id, rid, s.delivery.queue) in req.intents;
      var i :| 0 <= i < |req.intents| && req.intents[i] == IntentRequest(s.id, rid, s.delivery.queue);
      assert IntentKey(req.intents[i].sub, req.intents[i].rid) in IntentKeys(req.intents);
    }
    forall ik | ik in after.intents && ik !in before.intents
      ensures exists s :: s in app.subscriptions && s.stream == app.stream && kind in s.kinds
                       && s.delivery.OutboxDelivery? && ik == IntentKey(s.id, rid)
    {
      var i :| 0 <= i < |req.intents| && ik == IntentKey(req.intents[i].sub, req.intents[i].rid);
      assert req.intents[i] in req.intents;
    }
  }

  lemma ChangeIsStaged<T(!new), M(!new)>(
      app: App<T, M>, base: Revised<T, M>, state: T, meta: Option<M>, before: Db, after: Db, now: Time)
    requires InsertIntents(before.intents, PlanOnto(app, base, state, meta).intents, now) == Ok(after.intents)
    requires after.ledger == RecordFingerprint(before.ledger, PlanOnto(app, base, state, meta), now)
    ensures StagesPlan(app, Kind.Change, RowKey(Key(app.stream, base.key.id), base.rev + 1), before, after, now)
  {
    hide InsertIntents, RecordFingerprint, StagesPlan;
    forall ir { ChangePlanOwes(app, base, state, meta, ir); }
    PlanIsStaged(app, PlanOnto(app, base, state, meta), Kind.Change,
                 RowKey(Key(app.stream, base.key.id), base.rev + 1), before, after, now);
  }

  lemma TipExists<T(!new), M(!new)>(app: App<T, M>, hist: History, key: Key)
    requires PlannedTip(app, hist, key)
    ensures RevsOf(hist, key) != []
  {
  }

  /** The whole path of a create: of an aggregate that does not exist yet, it is
      accepted, and every later world's worker rebuilds the envelope that was
      dispatched inline: revision 0, the planned state and metadata, and all keys. */
  lemma CreateCommitRebuild<T(!new), M(!new)>(
      app: App<T, M>, enc: Encodings, clock: Time, cfg: Config, events: seq<Event>, w: World,
      id: nat, state: T, meta: Option<M>, later: seq<Event>, end: World)
    requires app.Valid() && app.state.Idempotent() && app.meta.Idempotent()
    requires ValidEncodings(enc) && Reaches(Start(enc, clock), cfg, events, w) && cfg.maxBatch >= 1
    requires forall i :: 0 <= i < |app.subscriptions| ==>
      app.subscriptions[i].delivery.OutboxDelivery? ==> app.subscriptions[i].delivery.queue != ""
    requires RevsOf(w.hist, Key(app.stream, id)) == [] && ValidEncodings(w.enc)
    requires Reaches(AfterCommit(w, cfg, [PlanCreate(app, id, state, meta)]), cfg, later, end)
    ensures CommitOne(w.db, w.enc, PlanCreate(app, id, state, meta), w.clock).Ok?
    ensures ValidEncodings(end.enc) && app.Serves(app.state.version, app.meta.version)
    ensures ServedAt(app, end.db.log, RowKey(Key(app.stream, id), 0))
    ensures var notice := DurableNotice(app, end.db.log, end.enc, Key(app.stream, id), 0);
      var req := PlanCreate(app, id, state, meta);
      && notice == InlineNotice(app, req, CommitResult(req.key, 0, w.clock, false), None)
      && notice.Ok?
      && var n := notice.value;
         && n.kind == Create && n.revision.rev == 0 && n.revision.at == w.clock
         && app.state.dump(n.revision.state) == app.state.dump(state)
         && app.meta.dump(n.revision.meta) == app.meta.dump(if meta.Some? then meta.value else app.defaultMeta)
         && n.revision.digest == DigestOf(CanonicalBytes(app.state.dump(state)))
         && n.changed == app.state.dump(state).Keys
    ensures StagesPlan(app, Create, RowKey(Key(app.stream, id), 0), w.db,
                       AfterCommit(w, cfg, [PlanCreate(app, id, state, meta)]).db, w.clock)
  {
    hide CommitOne, CommitAll, Reaches, Agrees, OnGrid, Planned, Judge, AfterCommit, DurableNotice, InlineNotice;
    hide StagesPlan, InsertIntents, RecordFingerprint;
    var req := PlanCreate(app, id, state, meta);
    EveryRunIsSound(enc, clock, cfg, events, w);
    PlannedWriteSucceeds<T, M>(app, enc, clock, cfg, events, w, id, None, state, meta);
    CreatePlanIsAdmissible(app, id, state, meta);
    CommitOneFollowsHistory(w.db, w.hist, w.grid, w.enc, req, w.clock);
    NextIsNoReplay(w, req);
    CommitsAlone(w, cfg, req);
    ResultNamesTarget(w.db, w.enc, req, w.clock);
    BatchOfOne(w, cfg, req);
    EnvelopesAgree(app, w, cfg, [req], 0, None, later, end);
    PlannedEnvelopeExists(app, req, CommitResult(req.key, 0, w.clock, false), None, state,
                          if meta.Some? then meta.value else app.defaultMeta);
    forall ir { CreatePlanOwes(app, id, state, meta, ir); }
    PlanIsStaged(app, req, Create, RowKey(Key(app.stream, id), 0), w.db, AfterCommit(w, cfg, [req]).db, w.clock);
  }

  lemma BaseStaysPrevious<T(!new), M(!new)>(
      app: App<T, M>, hist: History, after: History, req: CommitRequest, base: T, at: Time)
    requires BeforeIsPrevious(app, hist, req, Some(base))
    requires after == hist[req.key := RevsOf(hist, req.key) + [RevisionOf(req, at)]]
    ensures BeforeIsPrevious(app, after, req, Some(base))
  {
  }

  lemma BatchOfOne(w: World, cfg: Config, req: CommitRequest)
    requires ValidEncodings(w.enc) && cfg.maxBatch >= 1 && CommitOne(w.db, w.enc, req, w.clock).Ok?
    ensures CommitAll(w.db, w.enc, [req], w.clock)
      == Ok(Commits.Batch(CommitOne(w.db, w.enc, req, w.clock).value.db,
                          [CommitOne(w.db, w.enc, req, w.clock).value.result]))
  {
    hide CommitOne;
    assert [req][..0] == [];
    assert CommitAll(w.db, w.enc, [], w.clock) == Ok(Commits.Batch(w.db, []));
    var result := CommitOne(w.db, w.enc, req, w.clock).value.result;
    assert [] + [result] == [result];
  }
}
