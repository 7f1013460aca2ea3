/** In every reachable world no intent is lost or resurrected, and, while workers
    settle within their leases, no two hold the same intent. */
module RunDelivery {
  import opened Results
  import opened Tables
  import opened LogReads
  import opened Commits
  import opened Agreement
  import opened HeadRepair
  import opened Outbox
  import opened Worker
  import opened Runs

  // ---------------------------------------------------- intents and commits

  /** Inserting intents adds exactly the requested ones, all of them new, pending
      and never tried, due at once on their own queues, and leaves the others as
      they are. */
  lemma {:induction false} InsertAddsFresh(intents: Intents, irs: seq<IntentRequest>, now: Time)
    requires InsertIntents(intents, irs, now).Ok?
    ensures var after := InsertIntents(intents, irs, now).value;
      && after.Keys == intents.Keys + IntentKeys(irs)
      && intents.Keys !! IntentKeys(irs)
      && (forall ik :: ik in intents ==> after[ik] == intents[ik])
      && (forall ik :: ik in IntentKeys(irs) ==> NeverTried(after[ik]))
      && (forall i :: 0 <= i < |irs| ==>
            && IntentKey(irs[i].sub, irs[i].rid) in after
            && after[IntentKey(irs[i].sub, irs[i].rid)] == Intent(irs[i].queue, Pending, 0, now, None, None, now))
    decreases |irs|
  {
    if irs != [] {
      var n := |irs| - 1;
      InsertAddsFresh(intents, irs[..n], now);
      IntentKeysNext(irs);
      forall i | 0 <= i < n
        ensures IntentKey(irs[i].sub, irs[i].rid) in IntentKeys(irs[..n]) && irs[..n][i] == irs[i]
      {
        assert irs[..n][i] == irs[i];
      }
    } else {
      assert IntentKeys(irs) == {};
    }
  }

  predicate NeverTried(i: Intent) {
    i.status == Pending && i.attempts == 0 && i.leasedUntil.None?
  }

  lemma IntentKeysNext(irs: seq<IntentRequest>)
    requires irs != []
    ensures var n := |irs| - 1;
      IntentKeys(irs) == IntentKeys(irs[..n]) + {IntentKey(irs[n].sub, irs[n].rid)}
  {
  }

  /** What a commit may do to log and intents: add rows, and add new intents for
      rows that were not there before. */
  ghost predicate Adds(before: Db, after: Db, made: set<IntentKey>) {
    && (forall rk :: rk in before.log ==> rk in after.log && after.log[rk] == before.log[rk])
    && after.intents.Keys == before.intents.Keys + made
    && (forall ik :: ik in before.intents ==> ik in after.intents && after.intents[ik] == before.intents[ik])
    && (forall ik :: ik in made ==> ik !in before.intents && ik.rid !in before.log && ik.rid in after.log)
    && (forall ik :: ik in made && ik in after.intents ==> NeverTried(after.intents[ik]))
  }

  /** An append writes one row where there was none, and inserts the intents. */
  lemma AppendWrites(db: Db, enc: Encodings, base: Option<Head>, req: CommitRequest, now: Time)
    requires ValidEncodings(enc) && AppendRow(db, enc, base, req, now).Ok?
    ensures var after := AppendRow(db, enc, base, req, now).value;
      && TargetKey(req) !in db.log
      && after.log == db.log[TargetKey(req) := NewRow(enc, base, req, now)]
      && InsertIntents(db.intents, req.intents, now) == Ok(after.intents)
  {
  }

  lemma AppendAdds(db: Db, enc: Encodings, base: Option<Head>, req: CommitRequest, now: Time)
    requires ValidEncodings(enc) && Planned(req) && AppendRow(db, enc, base, req, now).Ok?
    ensures Adds(db, AppendRow(db, enc, base, req, now).value, IntentKeys(req.intents))
  {
    hide AppendRow, NewRow, InsertIntents, IntentKeys, NeverTried;
    AppendWrites(db, enc, base, req, now);
    InsertAddsFresh(db.intents, req.intents, now);
    PlannedKeys(req);
  }

  lemma PlannedKeys(req: CommitRequest)
    requires Planned(req)
    ensures forall ik :: ik in IntentKeys(req.intents) ==> ik.rid == TargetKey(req)
  {
  }

  lemma OneAdds(db: Db, enc: Encodings, req: CommitRequest, now: Time)
    requires ValidEncodings(enc) && Planned(req) && CommitOne(db, enc, req, now).Ok?
    ensures var c := CommitOne(db, enc, req, now).value;
      Adds(db, c.db, if c.result.replayed then {} else IntentKeys(req.intents))
  {
    hide Decoded, AppendRow, Adds, Planned, IntentKeys, Identical;
    match Decide(HeadOf(db.heads, req.key), RowOf(db.log, TargetKey(req)), req)
    case Replay(row) => HeadsAddNothing(db, RepairHead(db, enc, TargetKey(req), row).value);
    case Append(base) => AppendAdds(db, enc, base, req, now);
  }

  lemma HeadsAddNothing(db: Db, after: Db)
    requires after == db.(heads := after.heads)
    ensures Adds(db, after, {})
  {
  }

  lemma AddsTransitive(a: Db, b: Db, c: Db, m: set<IntentKey>, n: set<IntentKey>)
    requires Adds(a, b, m) && Adds(b, c, n)
    ensures Adds(a, c, m + n)
  {
  }

  lemma {:induction false} BatchAdds(db: Db, enc: Encodings, reqs: seq<CommitRequest>, now: Time)
    requires ValidEncodings(enc) && forall i :: 0 <= i < |reqs| ==> Planned(reqs[i])
    requires CommitAll(db, enc, reqs, now).Ok?
    ensures var b := CommitAll(db, enc, reqs, now).value;
      |b.results| == |reqs| && Adds(db, b.db, CreatedBy(reqs, b.results))
    decreases |reqs|
  {
    hide CommitOne, Planned, Adds;
    if reqs != [] {
      var n := |reqs| - 1;
      assert forall i :: 0 <= i < n ==> reqs[..n][i] == reqs[i];
      BatchAdds(db, enc, reqs[..n], now);
      var before, b := CommitAll(db, enc, reqs[..n], now).value, CommitAll(db, enc, reqs, now).value;
      assert b.results[..n] == before.results;
      OneAdds(before.db, enc, reqs[n], now);
      AddsTransitive(db, before.db, b.db, CreatedBy(reqs[..n], before.results),
                     if b.results[n].replayed then {} else IntentKeys(reqs[n].intents));
    } else {
      AddsNothing(db);
    }
  }

  lemma AddsNothing(db: Db)
    ensures Adds(db, db, {})
  {
  }

  // ------------------------------------------------------------- conservation

  /** Created intents split exactly into rows present and rows removed by a
      delivered settlement; delivered ones had their handler return; each belongs
      to a logged revision. */
  ghost predicate Conserved(w: World) {
    && w.created == w.db.intents.Keys + w.delivered
    && w.db.intents.Keys !! w.delivered
    && w.delivered <= w.returned
    && (forall ik :: ik in w.created ==> ik.rid in w.db.log)
    && (forall id :: id in w.sessions ==> Honest(w.sessions[id], w.returned))
  }

  /** A session reports delivered only what its handler returned for. */
  ghost predicate Honest(s: Session, returned: set<IntentKey>) {
    forall i :: 0 <= i < |s.settlements| && s.settlements[i].outcome.Delivered? ==> s.settlements[i].ik in returned
  }

  /** A present intent is leased exactly when it has a lease end, and its attempts
      are its claims since creation or last redrive. */
  ghost predicate Counted(w: World) {
    forall ik :: ik in w.db.intents ==>
      && (w.db.intents[ik].status == Leased <==> w.db.intents[ik].leasedUntil.Some?)
      && ik in w.claims && w.db.intents[ik].attempts == w.claims[ik]
  }

  /** What a commit step does to a world: it adds rows and the intents `made`. */
  ghost predicate Grows(w: World, after: World, made: set<IntentKey>) {
    && Adds(w.db, after.db, made)
    && after.created == w.created + made
    && after.claims.Keys == w.claims.Keys + made
    && (forall ik :: ik in after.claims ==> after.claims[ik] == if ik in made then 0 else w.claims[ik])
    && after.clock == w.clock && after.sessions == w.sessions
    && after.delivered == w.delivered && after.returned == w.returned
  }

  lemma AddingGrows(w: World, db: Db, hist: History, made: set<IntentKey>)
    requires Adds(w.db, db, made)
    ensures Grows(w, w.(db := db, hist := hist, created := w.created + made,
                        claims := w.claims + map ik | ik in made :: 0), made)
  {
  }

  lemma CommitGrows(w: World, cfg: Config, reqs: seq<CommitRequest>) returns (made: set<IntentKey>)
    requires ValidEncodings(w.enc) && Possible(w, CommitBatch(reqs))
    ensures Grows(w, AfterCommit(w, cfg, reqs), made)
  {
    hide Planned, Adds, Grows, CommitAll, CreatedBy;
    if |reqs| <= cfg.maxBatch && CommitAll(w.db, w.enc, reqs, w.clock).Ok? {
      BatchAdds(w.db, w.enc, reqs, w.clock);
      var b := CommitAll(w.db, w.enc, reqs, w.clock).value;
      made := CreatedBy(reqs, b.results);
      AddingGrows(w, b.db, Record(w.hist, reqs, b.results), made);
    } else {
      made := {};
      NothingGrows(w);
    }
  }

  lemma NothingGrows(w: World)
    ensures Grows(w, w, {})
  {
  }

  lemma GrowthConserves(w: World, after: World, made: set<IntentKey>)
    requires Conserved(w) && Grows(w, after, made)
    ensures Conserved(after)
  {
  }

  lemma GrowthCounts(w: World, after: World, made: set<IntentKey>)
    requires Counted(w) && Grows(w, after, made)
    ensures Counted(after)
  {
  }

  lemma CommitConserves(w: World, cfg: Config, reqs: seq<CommitRequest>)
    requires ValidEncodings(w.enc) && Conserved(w) && Counted(w) && Possible(w, CommitBatch(reqs))
    ensures Conserved(AfterCommit(w, cfg, reqs)) && Counted(AfterCommit(w, cfg, reqs))
  {
    hide AfterCommit, Conserved, Counted, Grows;
    var made := CommitGrows(w, cfg, reqs);
    GrowthConserves(w, AfterCommit(w, cfg, reqs), made);
    GrowthCounts(w, AfterCommit(w, cfg, reqs), made);
  }

  lemma HandleConserves(w: World, cfg: Config, id: nat, handled: Handled)
    requires Conserved(w) && Counted(w) && Possible(w, HandleNext(id, handled))
    ensures Conserved(AfterHandle(w, cfg, id, handled)) && Counted(AfterHandle(w, cfg, id, handled))
  {
  }

  lemma SettleConserves(w: World, id: nat)
    requires Conserved(w) && Counted(w) && id in w.sessions
    ensures Conserved(AfterSettle(w, id)) && Counted(AfterSettle(w, id))
  {
    var ss := w.sessions[id].settlements;
    var after := AfterSettle(w, id);
    assert Honest(w.sessions[id], w.returned);
    SettleKeeps(w.db.intents, ss);
    forall ik ensures ik in after.db.intents <==> ik in w.db.intents && ik !in RemovedBy(w.db.intents, ss) {
      SettleRemoves(w.db.intents, ss, ik);
      if ik in RemovedBy(w.db.intents, ss) {
        var i :| 0 <= i < |ss| && ss[i].outcome.Delivered? && ss[i].ik == ik;
        assert ss[i] == Settlement(ik, Delivered);
      }
    }
  }

  /** A settled row that stays keeps its attempts, and its lease end matches its status. */
  lemma {:induction false} SettleKeeps(intents: Intents, ss: seq<Settlement>)
    requires forall ik :: ik in intents ==> (intents[ik].status == Leased <==> intents[ik].leasedUntil.Some?)
    ensures forall ik :: ik in SettleAll(intents, ss) ==>
      && ik in intents
      && SettleAll(intents, ss)[ik].attempts == intents[ik].attempts
      && (SettleAll(intents, ss)[ik].status == Leased <==> SettleAll(intents, ss)[ik].leasedUntil.Some?)
    decreases |ss|
  {
    if ss != [] { SettleKeeps(intents, ss[..|ss| - 1]); }
  }

  lemma StepConserves(w: World, cfg: Config, e: Event)
    requires ValidEncodings(w.enc) && Possible(w, e) && Conserved(w) && Counted(w)
    ensures Conserved(Apply(w, cfg, e)) && Counted(Apply(w, cfg, e))
  {
    hide Conserved, Counted, RebuiltHeads, ClaimSelects, Planned;
    match e
    case CommitBatch(reqs) => CommitConserves(w, cfg, reqs);
    case HandleNext(id, handled) => HandleConserves(w, cfg, id, handled);
    case SettleSession(id) => SettleConserves(w, id);
    case ClaimBatch(id, _, _, lease, sel) => ClaimConserves(w, id, lease, sel);
    case Redrive(sub) => RedriveConserves(w, sub);
    case _ => QuietConserves(w, Apply(w, cfg, e));
  }

  /** Ticks, crashes, reopenings and rebuilds touch no row of log or outbox. */
  lemma QuietConserves(w: World, after: World)
    requires Conserved(w) && Counted(w)
    requires after.db.log == w.db.log && after.db.intents == w.db.intents && after.claims == w.claims
    requires after.created == w.created && after.delivered == w.delivered && after.returned == w.returned
    requires forall id :: id in after.sessions ==> id in w.sessions && after.sessions[id] == w.sessions[id]
    ensures Conserved(after) && Counted(after)
  {
  }

  lemma ClaimConserves(w: World, id: nat, lease: Time, sel: seq<IntentKey>)
    requires Conserved(w) && Counted(w)
    ensures Conserved(AfterClaim(w, id, lease, sel)) && Counted(AfterClaim(w, id, lease, sel))
  {
  }

  lemma RedriveConserves(w: World, sub: string)
    requires Conserved(w) && Counted(w)
    ensures Conserved(AfterRedrive(w, sub)) && Counted(AfterRedrive(w, sub))
  {
  }

  /** No intent is lost or resurrected, in any run, whenever workers crash. */
  lemma {:induction false} EveryRunConserves(enc: Encodings, clock: Time, cfg: Config, events: seq<Event>, w: World)
    requires ValidEncodings(enc) && Reaches(Start(enc, clock), cfg, events, w)
    ensures Conserved(w) && Counted(w)
    decreases |events|
  {
    if events != [] {
      var front, last := events[..|events| - 1], events[|events| - 1];
      var mid :| Reaches(Start(enc, clock), cfg, front, mid) && ValidEncodings(mid.enc) && Possible(mid, last)
        && w == Apply(mid, cfg, last);
      hide Apply, Possible;
      EveryRunConserves(enc, clock, cfg, front, mid);
      StepConserves(mid, cfg, last);
    }
  }

  // --------------------------------------------------------- immutable rows

  ghost predicate RowsKept(before: Log, after: Log) {
    forall rk :: rk in before ==> rk in after && after[rk] == before[rk]
  }

  lemma StepKeepsRows(w: World, cfg: Config, e: Event)
    requires ValidEncodings(w.enc) && Possible(w, e)
    ensures RowsKept(w.db.log, Apply(w, cfg, e).db.log)
  {
    hide RebuiltHeads, SettleAll, MarkLeased, Redriven;
    if e.CommitBatch? {
      var made := CommitGrows(w, cfg, e.reqs);
      hide AfterCommit;
    }
  }

  /** No run, whatever it does, changes or removes a stored row. */
  lemma {:induction false} RowsAreImmutable(w0: World, cfg: Config, events: seq<Event>, w: World)
    requires Reaches(w0, cfg, events, w)
    ensures RowsKept(w0.db.log, w.db.log)
    decreases |events|
  {
    if events != [] {
      var front, last := events[..|events| - 1], events[|events| - 1];
      var mid :| Reaches(w0, cfg, front, mid) && ValidEncodings(mid.enc) && Possible(mid, last)
        && w == Apply(mid, cfg, last);
      hide Apply, Possible;
      RowsAreImmutable(w0, cfg, front, mid);
      StepKeepsRows(mid, cfg, last);
    }
  }

  /** Each (subscription, revision) pair is created at most once: a commit reports
      creating only pairs that no earlier commit created, delivered ones included. */
  lemma CreatedAtMostOnce(
      enc: Encodings, clock: Time, cfg: Config, events: seq<Event>, w: World, reqs: seq<CommitRequest>)
    requires ValidEncodings(enc) && Reaches(Start(enc, clock), cfg, events, w) && ValidEncodings(w.enc)
    requires forall i :: 0 <= i < |reqs| ==> Planned(reqs[i])
    requires CommitAll(w.db, w.enc, reqs, w.clock).Ok?
    ensures var b := CommitAll(w.db, w.enc, reqs, w.clock).value;
      |b.results| == |reqs| && CreatedBy(reqs, b.results) !! w.created
  {
    hide Reaches, Planned, CommitAll;
    EveryRunConserves(enc, clock, cfg, events, w);
    BatchAdds(w.db, w.enc, reqs, w.clock);
  }

  // ---------------------------------------------------------- lease exclusion

  /** The session's lease is unexpired and covers the intent. */
  ghost predicate Holds(w: World, id: nat, ik: IntentKey) {
    id in w.sessions && w.sessions[id].until >= w.clock && Covers(w.sessions[id], ik)
  }

  ghost predicate Covers(s: Session, ik: IntentKey) {
    exists i :: 0 <= i < |s.claimed| && s.claimed[i].ik == ik
  }

  /** The row says leased, until exactly the holder's lease end. */
  predicate Secured(w: World, id: nat, ik: IntentKey)
    requires id in w.sessions
  {
    && ik in w.db.intents
    && w.db.intents[ik].status == Leased
    && w.db.intents[ik].leasedUntil == Some(w.sessions[id].until)
  }

  /** Settlements follow the claimed intents in order. */
  ghost predicate InStep(s: Session) {
    |s.settlements| <= |s.claimed| && forall i :: 0 <= i < |s.settlements| ==> s.settlements[i].ik == s.claimed[i].ik
  }

  ghost predicate Exclusive(w: World) {
    && (forall id :: id in w.sessions ==> InStep(w.sessions[id]))
    && (forall id, ik :: Holds(w, id, ik) ==> Secured(w, id, ik))
    && (forall a, b, ik :: Holds(w, a, ik) && Holds(w, b, ik) ==> a == b)
  }

  /** The worker settles only while its own lease is unexpired. */
  predicate InTime(w: World, e: Event) {
    e.SettleSession? && e.id in w.sessions ==> w.sessions[e.id].until >= w.clock
  }

  lemma ClaimExcludes(w: World, id: nat, queue: string, limit: nat, lease: Time, sel: seq<IntentKey>)
    requires Exclusive(w) && Possible(w, ClaimBatch(id, queue, limit, lease, sel))
    ensures Exclusive(AfterClaim(w, id, lease, sel))
  {
    hide ClaimSelects, Claimable;
    var after := AfterClaim(w, id, lease, sel);
    forall a, ik | Holds(after, a, ik)
      ensures Secured(after, a, ik)
      ensures a == id <==> ik in sel
    {
      if a == id {
        NewLeaseSecures(w, id, queue, limit, lease, sel, ik);
      } else {
        assert Holds(w, a, ik) && Secured(w, a, ik);
        HeldIsNotSelected(w, a, ik, queue, limit, sel);
      }
    }
    forall a, b, ik | Holds(after, a, ik) && Holds(after, b, ik) ensures a == b {
      if a != id { assert b != id && Holds(w, a, ik) && Holds(w, b, ik); }
    }
  }

  lemma NewLeaseSecures(
      w: World, id: nat, queue: string, limit: nat, lease: Time, sel: seq<IntentKey>, ik: IntentKey)
    requires ClaimSelects(sel, w.db.intents, w.db.log, queue, limit, w.clock)
    requires Covers(AfterClaim(w, id, lease, sel).sessions[id], ik)
    ensures ik in sel && Secured(AfterClaim(w, id, lease, sel), id, ik)
  {
  }

  /** An intent under an unexpired lease is not claimable. */
  lemma HeldIsNotSelected(w: World, id: nat, ik: IntentKey, queue: string, limit: nat, sel: seq<IntentKey>)
    requires ClaimSelects(sel, w.db.intents, w.db.log, queue, limit, w.clock)
    requires Holds(w, id, ik) && Secured(w, id, ik)
    ensures ik !in sel
  {
  }

  lemma SettleExcludes(w: World, id: nat)
    requires Exclusive(w) && id in w.sessions && w.sessions[id].until >= w.clock
    ensures Exclusive(AfterSettle(w, id))
  {
    var ss := w.sessions[id].settlements;
    var after := AfterSettle(w, id);
    forall a, ik | Holds(after, a, ik) ensures Secured(after, a, ik) && Holds(w, a, ik) {
      assert Holds(w, a, ik) && InStep(w.sessions[id]);
      forall i | 0 <= i < |ss| ensures ss[i].ik != ik {
        if ss[i].ik == ik { assert Holds(w, id, ik); }
      }
      SettleFrame(w.db.intents, ss, ik);
    }
  }

  lemma HandleExcludes(w: World, cfg: Config, id: nat, handled: Handled)
    requires Exclusive(w) && Possible(w, HandleNext(id, handled))
    ensures Exclusive(AfterHandle(w, cfg, id, handled))
  {
    var after := AfterHandle(w, cfg, id, handled);
    assert InStep(w.sessions[id]);
    assert InStep(after.sessions[id]);
    forall a, ik | Holds(after, a, ik) ensures Holds(w, a, ik) && Secured(after, a, ik) {
      assert Covers(w.sessions[a], ik);
      assert Holds(w, a, ik) && Secured(w, a, ik);
    }
  }

  /** Steps that leave sessions alone, do not turn the clock back and keep leased rows. */
  lemma FrameExcludes(w: World, after: World)
    requires Exclusive(w) && after.clock >= w.clock
    requires forall id :: id in after.sessions ==> id in w.sessions && after.sessions[id] == w.sessions[id]
    requires forall ik :: ik in w.db.intents && w.db.intents[ik].status == Leased ==>
      ik in after.db.intents && after.db.intents[ik] == w.db.intents[ik]
    ensures Exclusive(after)
  {
    forall a, ik | Holds(after, a, ik) ensures Holds(w, a, ik) && Secured(after, a, ik) {
      assert Holds(w, a, ik) && Secured(w, a, ik);
    }
  }

  lemma StepExcludes(w: World, cfg: Config, e: Event)
    requires ValidEncodings(w.enc) && Possible(w, e) && InTime(w, e) && Exclusive(w)
    ensures Exclusive(Apply(w, cfg, e))
  {
    hide Exclusive, ClaimSelects, RebuiltHeads;
    match e
    case ClaimBatch(id, queue, limit, lease, sel) => ClaimExcludes(w, id, queue, limit, lease, sel);
    case HandleNext(id, handled) => HandleExcludes(w, cfg, id, handled);
    case SettleSession(id) => SettleExcludes(w, id);
    case CommitBatch(reqs) =>
      var made := CommitGrows(w, cfg, reqs);
      hide AfterCommit;
      FrameExcludes(w, Apply(w, cfg, e));
    case _ => FrameExcludes(w, Apply(w, cfg, e));
  }

  /** A run in which every worker settles within its lease. */
  ghost predicate ReachesInTime(w0: World, cfg: Config, events: seq<Event>, w: World)
    decreases |events|
  {
    if events == [] then w == w0
    else exists mid ::
      && ReachesInTime(w0, cfg, events[..|events| - 1], mid)
      && ValidEncodings(mid.enc) && Possible(mid, events[|events| - 1]) && InTime(mid, events[|events| - 1])
      && w == Apply(mid, cfg, events[|events| - 1])
  }

  /** Lease exclusion: while workers settle within their leases, no two hold an
      unexpired lease on the same intent, and the row names the holder's lease. */
  lemma {:induction false} EveryTimelyRunExcludes(
      enc: Encodings, clock: Time, cfg: Config, events: seq<Event>, w: World)
    requires ValidEncodings(enc) && ReachesInTime(Start(enc, clock), cfg, events, w)
    ensures forall a, b, ik :: Holds(w, a, ik) && Holds(w, b, ik) ==> a == b
    ensures forall id, ik :: Holds(w, id, ik) ==> Secured(w, id, ik)
    ensures Exclusive(w)
    decreases |events|
  {
    if events != [] {
      var front, last := events[..|events| - 1], events[|events| - 1];
      var mid :| ReachesInTime(Start(enc, clock), cfg, front, mid) && ValidEncodings(mid.enc)
        && Possible(mid, last) && InTime(mid, last) && w == Apply(mid, cfg, last);
      hide Apply, Possible;
      EveryTimelyRunExcludes(enc, clock, cfg, front, mid);
      StepExcludes(mid, cfg, last);
    }
  }

  /** Why the assumption is needed: settle matches on the intent alone, so a retry
      settled by a worker whose lease ran out makes an intent claimable while
      another worker still holds it. */
  lemma LateRetryFreesHeldIntent(w: World, late: nat, holder: nat, k: nat)
    requires late in w.sessions && holder != late && k < |w.sessions[late].settlements|
    requires var s := w.sessions[late].settlements[k];
      && Holds(w, holder, s.ik) && Secured(w, holder, s.ik)
      && s.outcome.Retry? && s.outcome.availableAt <= w.clock
      && forall i :: 0 <= i < |w.sessions[late].settlements| && i != k ==> w.sessions[late].settlements[i].ik != s.ik
    ensures var ik, after := w.sessions[late].settlements[k].ik, AfterSettle(w, late);
      && Holds(after, holder, ik) && !Secured(after, holder, ik)
      && ik in after.db.intents
      && Claimable(after.db.intents[ik], w.db.intents[ik].queue, after.clock)
  {
    var ik := w.sessions[late].settlements[k].ik;
    SettleApplies(w.db.intents, w.sessions[late].settlements, k);
    assert Covers(AfterSettle(w, late).sessions[holder], ik);
  }
}
