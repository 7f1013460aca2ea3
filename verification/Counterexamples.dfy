/** Promises that fail, each at concrete inputs, on tables that commits made. */
module Counterexamples {
  import opened Results
  import opened JsonValues
  import opened DeltaEncoding
  import opened Tables
  import opened Commits
  import opened Agreement
  import opened Outbox
  import opened Worker
  import Race
  import RaceHeads
  import Replays
  import Retry
  import opened Runs
  import opened RunAgreement
  import opened RunDelivery

  const KEY := Key("s", 0)
  const RID := RowKey(KEY, 0)
  const IK := IntentKey("sub", RID)
  const CFG := Config(map["sub" := OutboxDelivery("q", Retry.Backoff(2, 0.0, 1.0, 0.0))], 1)

  function Request(expected: Option<int>, doc: Doc, meta: Doc, intents: seq<IntentRequest>): CommitRequest {
    var payload := CanonicalBytes(doc);
    CommitRequest(KEY, expected, if expected.None? then Create else Change, 1, payload, DigestOf(payload),
                  CanonicalBytes(meta), 1, "f", intents)
  }

  // ---------------------------------------------------------- building a run

  lemma Extend(w0: World, cfg: Config, events: seq<Event>, w: World, e: Event)
    requires Reaches(w0, cfg, events, w) && ValidEncodings(w.enc) && Possible(w, e)
    ensures Reaches(w0, cfg, events + [e], Apply(w, cfg, e))
  {
    hide Apply, Possible;
    var all := events + [e];
    assert all[..|all| - 1] == events && all[|all| - 1] == e;
  }

  function Revised(req: CommitRequest): History {
    map[req.key := [RevisionOf(req, 0.0)]]
  }

  /** The world after creating the aggregate, in snapshot encoding, at time 0. */
  function Created(doc: Doc, meta: Doc, intents: seq<IntentRequest>): World {
    AfterCommit(Start(map[], 0.0), CFG, [Request(None, doc, meta, intents)])
  }

  lemma CreateIsAccepted(doc: Doc, meta: Doc, intents: seq<IntentRequest>)
    requires InsertIntents(map[], intents, 0.0).Ok? && forall i :: 0 <= i < |intents| ==> intents[i].rid == RID
    ensures var w, req := Start(map[], 0.0), Request(None, doc, meta, intents);
      Planned(req) && Judge(w.hist, w.enc, w.db.intents, req, w.clock).Accepted?
  {
    hide InsertIntents;
  }

  /** What is written without a base is a full document. */
  lemma FirstRowIsFull(req: CommitRequest)
    ensures NewRow(map[], None, req, 0.0).payload.Full?
  {
  }

  lemma EmptyRun(w0: World)
    ensures Reaches(w0, CFG, [], w0)
  {
  }

  lemma CreateCommits(doc: Doc, meta: Doc, intents: seq<IntentRequest>)
    requires InsertIntents(map[], intents, 0.0).Ok? && forall i :: 0 <= i < |intents| ==> intents[i].rid == RID
    ensures var req := Request(None, doc, meta, intents);
      var w := Created(doc, meta, intents);
      && Possible(Start(map[], 0.0), CommitBatch([req]))
      && Reaches(Start(map[], 0.0), CFG, [CommitBatch([req])], w)
      && CommitOne(Start(map[], 0.0).db, map[], req, 0.0).Ok?
      && !CommitOne(Start(map[], 0.0).db, map[], req, 0.0).value.result.replayed
      && w.db == CommitOne(Start(map[], 0.0).db, map[], req, 0.0).value.db
      && Sound(w) && w.hist == Revised(req) && w.db.log.Keys == {RID} && w.db.log[RID].payload.Full?
      && InsertIntents(map[], intents, 0.0) == Ok(w.db.intents)
      && w.clock == 0.0 && w.sessions == map[] && w.enc == map[] && w.grid == map[]
  {
    hide CommitOne, AfterCommit, Agrees, InsertIntents, Judge, Planned, OnGrid, Reaches, NewRow, RevisionOf, Possible;
    var w0, req := Start(map[], 0.0), Request(None, doc, meta, intents);
    StartIsSound(map[], 0.0);
    CreateIsAccepted(doc, meta, intents);
    CommitsAlone(w0, CFG, req);
    FirstRowIsFull(req);
    var w := Created(doc, meta, intents);
    assert RevsOf(w0.hist, KEY) + [RevisionOf(req, 0.0)] == [RevisionOf(req, 0.0)];
    assert w.hist == Revised(req);
    assert w.db.log.Keys == {RID};
    EmptyRun(w0);
    Extend(w0, CFG, [], w0, CommitBatch([req]));
    assert [] + [CommitBatch([req])] == [CommitBatch([req])];
  }

  // --------------------------------------------------- a replay that is not one

  lemma HiddenMetadataIsSame()
    ensures var first := Request(None, map[], map["n" := Int(1)], []);
      var second := Request(None, map[], map["n" := Bool(true)], []);
      && first.meta != second.meta && Planned(second)
      && Judge(Revised(first), map[], map[], second, 0.0) == Replayed
  {
    assert PyEq(Int(1), Bool(true));
    var a: Doc, b: Doc := map["n" := Int(1)], map["n" := Bool(true)];
    assert a["n"] != b["n"];
  }

  /** The design asks that every durable field match before a write is taken for a
      replay.  Committing metadata {"n": 1} and then the same write with
      {"n": true} is reported replayed, and the second metadata is dropped. */
  lemma ReplayIgnoresHiddenMetadata()
    ensures var first := Request(None, map[], map["n" := Int(1)], []);
      var second := Request(None, map[], map["n" := Bool(true)], []);
      && first.meta != second.meta
      && CommitOne(Start(map[], 0.0).db, map[], first, 0.0).Ok?
      && var db := CommitOne(Start(map[], 0.0).db, map[], first, 0.0).value.db;
      && CommitOne(db, map[], second, 0.0) == Ok(Committed(db, CommitResult(KEY, 0, 0.0, true)))
  {
    hide CommitOne, Agrees, Created, Judge, Planned, RevisionOf, OnGrid;
    var second := Request(None, map[], map["n" := Bool(true)], []);
    CreateCommits(map[], map["n" := Int(1)], []);
    HiddenMetadataIsSame();
    var w := Created(map[], map["n" := Int(1)], []);
    assert w.db.intents == map[];
    CommitOneFollowsHistory(w.db, w.hist, w.grid, w.enc, second, 0.0);
  }

  // ------------------------------------------------ a head that moves backwards

  function FirstWrite(): CommitRequest {
    Request(None, map[], map[], [])
  }

  function SecondWrite(): CommitRequest {
    Request(Some(0), map["a" := Null], map[], [])
  }

  /** A create, the same create sent again, and a change. */
  function Racers(): Race.Field {
    Race.Field(KEY, map[], [FirstWrite(), FirstWrite(), SecondWrite()], [0.0, 0.0, 0.0])
  }

  /** The second sender reads no head; then the first and the third run to their
      ends; then the second reads the row. */
  function StaleSteps(): seq<Race.Step> {
    [Race.ReadHead(1)] + Race.SoloSteps(0) + Race.SoloSteps(2) + [Race.ReadRow(1)]
  }

  function Twice(): World {
    AfterCommit(Created(map[], map[], []), CFG, [SecondWrite()])
  }

  function Empty(): World {
    Start(map[], 0.0)
  }

  lemma TwiceCommits()
    ensures var once, twice := Created(map[], map[], []), Twice();
      && CommitOne(Empty().db, map[], FirstWrite(), 0.0).Ok?
      && !CommitOne(Empty().db, map[], FirstWrite(), 0.0).value.result.replayed
      && once.db == CommitOne(Empty().db, map[], FirstWrite(), 0.0).value.db
      && CommitOne(once.db, map[], SecondWrite(), 0.0).Ok?
      && !CommitOne(once.db, map[], SecondWrite(), 0.0).value.result.replayed
      && twice.db == CommitOne(once.db, map[], SecondWrite(), 0.0).value.db
      && RowOf(twice.db.log, RID).Some? && RowKey(KEY, 1) in twice.db.log
      && Identical(twice.db.log[RID], FirstWrite()) && Replays.HeadRev(twice.db.heads, KEY) == 1
  {
    hide CommitOne, AfterCommit, Agrees, Created, Judge, Planned, OnGrid;
    var once, twice := Created(map[], map[], []), Twice();
    CreateCommits(map[], map[], []);
    assert once.db.intents == map[];
    SecondIsAccepted(once);
    CommitsAlone(once, CFG, SecondWrite());
    assert twice.hist[KEY][0] == RevisionOf(FirstWrite(), 0.0);
    TablesAt(twice.db, twice.hist, twice.grid, KEY, 0);
    TablesAt(twice.db, twice.hist, twice.grid, KEY, 1);
  }

  lemma SecondIsAccepted(w: World)
    requires w.hist == Revised(FirstWrite()) && ValidEncodings(w.enc) && w.db.intents == map[]
    requires w.enc == map[] || w.enc == DELTA
    ensures Planned(SecondWrite()) && Judge(w.hist, w.enc, w.db.intents, SecondWrite(), w.clock).Accepted?
  {
  }

  /** The racers' state when the stale replay is about to repair the head. */
  function StaleState(): Race.State {
    Race.State(Twice().db, [Race.Done(Ok(CommitResult(KEY, 0, 0.0, false))),
                            Race.SawRow(None, RowOf(Twice().db.log, RID)),
                            Race.Done(Ok(CommitResult(KEY, 1, 0.0, false)))])
  }

  lemma StaleStateIsReached()
    ensures Race.Interleaves(Racers(), Empty().db, StaleSteps(), StaleState())
  {
    hide CommitOne, AfterCommit, Created, Race.Interleaves, Race.AfterInsert, Race.AfterCommit;
    var f, db := Racers(), Empty().db;
    TwiceCommits();
    var s0 := Race.Start(f, db);
    NoSteps(f, db);
    Race.Advance(f, db, [], s0, Race.ReadHead(1));
    var s1 := Race.After(f, s0, Race.ReadHead(1));
    assert s1 == Race.State(db, [Race.Idle, Race.SawHead(None), Race.Idle]);
    assert [] + [Race.ReadHead(1)] == [Race.ReadHead(1)];
    Race.SoloRuns(f, db, [Race.ReadHead(1)], s1, 0);
    ResultNamesTarget(db, map[], FirstWrite(), 0.0);
    var s2 := Race.State(Created(map[], map[], []).db,
                         s1.phases[0 := Race.Done(Ok(CommitResult(KEY, 0, 0.0, false)))]);
    Race.SoloRuns(f, db, [Race.ReadHead(1)] + Race.SoloSteps(0), s2, 2);
    ResultNamesTarget(s2.db, map[], SecondWrite(), 0.0);
    var s3 := Race.State(Twice().db, s2.phases[2 := Race.Done(Ok(CommitResult(KEY, 1, 0.0, false)))]);
    Race.Advance(f, db, [Race.ReadHead(1)] + Race.SoloSteps(0) + Race.SoloSteps(2), s3, Race.ReadRow(1));
    assert Race.After(f, s3, Race.ReadRow(1)) == StaleState();
  }

  lemma NoSteps(f: Race.Field, db: Db)
    ensures Race.Interleaves(f, db, [], Race.Start(f, db))
  {
  }

  /** The store means that a head never moves backwards.  In this interleaving the
      re-sent create, replayed on the head it did not find, takes the head from
      revision 1 back to revision 0, with revision 1 in the log. */
  lemma StaleReplayLowersHead() returns (after: Race.State)
    ensures Race.Interleaves(Racers(), Empty().db, StaleSteps(), StaleState())
    ensures Race.Interleaves(Racers(), Empty().db, StaleSteps() + [Race.Insert(1)], after)
    ensures Replays.HeadRev(StaleState().db.heads, KEY) == 1 && Replays.HeadRev(after.db.heads, KEY) == 0
    ensures RowKey(KEY, 1) in after.db.log
  {
    hide CommitOne, AfterCommit, Created, Race.Interleaves, Race.AfterInsert, Race.AfterCommit, Identical;
    var f, db, s := Racers(), Empty().db, StaleState();
    TwiceCommits();
    StaleStateIsReached();
    StartAgrees();
    assert RaceHeads.StaleReplay(f, s, Race.Insert(1));
    Race.Advance(f, db, StaleSteps(), s, Race.Insert(1));
    after := Race.After(f, s, Race.Insert(1));
    RaceHeads.HeadFallsIffStaleReplay(f, db, map[], map[], StaleSteps(), s, Race.Insert(1));
    var now := RaceHeads.EveryInterleavingIsSteady(f, db, map[], map[], StaleSteps(), s);
    RaceHeads.InsertKeepsHeads(f, s, now, map[], 1);
  }

  lemma StartAgrees()
    ensures RaceHeads.Mixed(Racers(), Empty().db, map[], map[])
  {
    StartIsSound(map[], 0.0);
  }

  // ---------------------------------------------- no checkpoint on a switch

  const DELTA: Encodings := map["s" := DeltaEncoded(20)]

  function Switched(): World {
    AfterReopen(Created(map[], map[], []), DELTA)
  }

  function SwitchRun(): seq<Event> {
    [CommitBatch([Request(None, map[], map[], [])])] + [Reopen(DELTA)] + [CommitBatch([SecondWrite()])]
  }

  /** The codec's header promises a checkpoint whenever a stream switches into
      delta.  A stream created as snapshot and reopened as delta with every 20
      stores its next revision as a patch. */
  lemma SwitchIntoDeltaWritesNoCheckpoint() returns (w: World)
    ensures Reaches(Start(map[], 0.0), CFG, SwitchRun(), w)
    ensures |RevsOf(w.hist, KEY)| == 2 && w.db.log.Keys == {RID, RowKey(KEY, 1)}
    ensures w.db.log[RID].payload.Full? && w.db.log[RowKey(KEY, 1)].payload.Delta?
  {
    hide CommitOne, AfterCommit, Agrees, Created, Judge, Planned, OnGrid, RevisionOf, Encode, Reaches;
    var w0, w1, w2 := Start(map[], 0.0), Created(map[], map[], []), Switched();
    CreateCommits(map[], map[], []);
    assert w1.db.intents == map[];
    var events := [CommitBatch([Request(None, map[], map[], [])])];
    assert MultipleOf(20, 1);
    Extend(w0, CFG, events, w1, Reopen(DELTA));
    ReopenKeepsSoundness(w1, DELTA);
    SecondIsAccepted(w2);
    CommitsAlone(w2, CFG, SecondWrite());
    w := AfterCommit(w2, CFG, [SecondWrite()]);
    Extend(w0, CFG, events + [Reopen(DELTA)], w2, CommitBatch([SecondWrite()]));
    TablesAt(w2.db, w2.hist, w2.grid, KEY, 0);
  }

  // ------------------------------------------------------ a late settlement

  function Only(i: Intent): Intents {
    map[IK := i]
  }

  function Leasing(i: Intent, until: Time): Intent {
    i.(status := Leased, leasedUntil := Some(until), attempts := i.attempts + 1)
  }

  function Holding(attempts: Attempt, until: Time, settlements: seq<Settlement>): Session {
    Session([Claimed(IK, "q", attempts)], until, settlements)
  }

  /** A run from the start to a world with this one intent, these sessions and time. */
  ghost predicate Stage(events: seq<Event>, w: World, i: Intent, sessions: map<nat, Session>, clock: Time) {
    && Reaches(Start(map[], 0.0), CFG, events, w) && ValidEncodings(w.enc) && RID in w.db.log
    && w.db.intents == Only(i) && i.queue == "q" && w.sessions == sessions && w.clock == clock
  }

  lemma OnlyIsSelected(i: Intent, log: Log, now: Time)
    requires Claimable(i, "q", now) && RID in log
    ensures ClaimSelects([IK], Only(i), log, "q", 1, now)
  {
    assert ClaimableKeys(Only(i), log, "q", now) == {IK};
  }

  function ClaimOf(id: nat, lease: Time): Event {
    ClaimBatch(id, "q", 1, lease, [IK])
  }

  lemma Claims(
      events: seq<Event>, w: World, i: Intent, sessions: map<nat, Session>, clock: Time, id: nat, lease: Time)
      returns (next: World)
    requires Stage(events, w, i, sessions, clock) && Claimable(i, "q", clock) && id !in sessions
    ensures Stage(events + [ClaimOf(id, lease)], next, Leasing(i, clock + lease),
                  sessions[id := Holding(i.attempts + 1, clock + lease, [])], clock)
  {
    hide Reaches, ClaimSelects;
    OnlyIsSelected(i, w.db.log, clock);
    next := AfterClaim(w, id, lease, [IK]);
    Extend(Start(map[], 0.0), CFG, events, w, ClaimOf(id, lease));
    assert ClaimedAll(Only(i), [IK]) == [Claimed(IK, "q", i.attempts + 1)];
    assert MarkLeased(Only(i), [IK], clock + lease) == Only(Leasing(i, clock + lease));
  }

  /** The handler raises on the first attempt: a retry, due at once. */
  lemma Fails(events: seq<Event>, w: World, i: Intent, until: Time) returns (next: World)
    requires Stage(events, w, i, map[0 := Holding(1, until, [])], 0.0)
    ensures Stage(events + [HandleNext(0, Raised(""))], next, i,
                  map[0 := Holding(1, until, [Settlement(IK, Outcome.Retry(0.0, None))])], 0.0)
  {
    hide Reaches;
    assert Retry.Power(1.0, 0) == 1.0;
    assert Retry.Decide(1, Retry.Backoff(2, 0.0, 1.0, 0.0), 0.0) == Retry.RetryAt(0.0);
    next := AfterHandle(w, CFG, 0, Raised(""));
    assert next.sessions[0] == Holding(1, until, [Settlement(IK, Outcome.Retry(0.0, None))]);
    assert next.sessions == map[0 := next.sessions[0]];
    Extend(Start(map[], 0.0), CFG, events, w, HandleNext(0, Raised("")));
  }

  lemma Ticks(events: seq<Event>, w: World, i: Intent, sessions: map<nat, Session>, clock: Time) returns (next: World)
    requires Stage(events, w, i, sessions, clock)
    ensures Stage(events + [Tick(2.0)], next, i, sessions, clock + 2.0)
  {
    hide Reaches;
    next := w.(clock := clock + 2.0);
    Extend(Start(map[], 0.0), CFG, events, w, Tick(2.0));
  }

  lemma Settles(events: seq<Event>, w: World, i: Intent, until: Time, sessions: map<nat, Session>, clock: Time)
      returns (next: World)
    requires Stage(events, w, i, sessions, clock) && 0 in sessions
    requires sessions[0] == Holding(1, until, [Settlement(IK, Outcome.Retry(0.0, None))])
    ensures Stage(events + [SettleSession(0)], next, i.(status := Pending, leasedUntil := None, availableAt := 0.0,
                                                        lastError := None), sessions - {0}, clock)
  {
    hide Reaches;
    var ss := sessions[0].settlements;
    assert ss[..0] == [] && SettleAll(Only(i), ss) == SettleOne(SettleAll(Only(i), []), ss[0]);
    next := AfterSettle(w, 0);
    Extend(Start(map[], 0.0), CFG, events, w, SettleSession(0));
  }

  function LateRun(): seq<Event> {
    [CommitBatch([Request(None, map[], map[], [IntentRequest("sub", RID, "q")])])] + [ClaimOf(0, 1.0)]
    + [HandleNext(0, Raised(""))] + [Tick(2.0)] + [ClaimOf(1, 10.0)] + [SettleSession(0)] + [ClaimOf(2, 10.0)]
  }

  lemma IntentStaged() returns (w: World, i: Intent)
    ensures Stage([CommitBatch([Request(None, map[], map[], [IntentRequest("sub", RID, "q")])])], w, i, map[], 0.0)
    ensures Claimable(i, "q", 0.0) && i.attempts == 0
  {
    hide Reaches, Created, Agrees, CommitOne;
    var irs := [IntentRequest("sub", RID, "q")];
    assert irs[..0] == [] && InsertIntents(map[], irs, 0.0) == Ok(map[][IK := NewIntent(irs[0], 0.0)]);
    CreateCommits(map[], map[], irs);
    w, i := Created(map[], map[], irs), NewIntent(irs[0], 0.0);
  }

  /** Lease exclusion needs its assumption.  Worker 0 claims for one second and
      decides on a retry; two seconds on, worker 1 claims for ten; worker 0 settles
      late; worker 2 claims.  Workers 1 and 2 now both hold the intent. */
  lemma LateSettlementBreaksExclusion() returns (w: World)
    ensures Reaches(Start(map[], 0.0), CFG, LateRun(), w)
    ensures Holds(w, 1, IK) && Holds(w, 2, IK)
  {
    hide Stage, ClaimSelects;
    var w1, i := IntentStaged();
    var events := [CommitBatch([Request(None, map[], map[], [IntentRequest("sub", RID, "q")])])];
    var w2 := Claims(events, w1, i, map[], 0.0, 0, 1.0);
    events := events + [ClaimOf(0, 1.0)];
    var j := Leasing(i, 1.0);
    assert map[][0 := Holding(1, 1.0, [])] == map[0 := Holding(1, 1.0, [])];
    var w3 := Fails(events, w2, j, 1.0);
    events := events + [HandleNext(0, Raised(""))];
    var late := Holding(1, 1.0, [Settlement(IK, Outcome.Retry(0.0, None))]);
    var w4 := Ticks(events, w3, j, map[0 := late], 0.0);
    events := events + [Tick(2.0)];
    var w5 := Claims(events, w4, j, map[0 := late], 2.0, 1, 10.0);
    events := events + [ClaimOf(1, 10.0)];
    var k, sessions := Leasing(j, 12.0), map[0 := late][1 := Holding(2, 12.0, [])];
    var w6 := Settles(events, w5, k, 1.0, sessions, 2.0);
    events := events + [SettleSession(0)];
    var l := k.(status := Pending, leasedUntil := None, availableAt := 0.0, lastError := None);
    w := Claims(events, w6, l, sessions - {0}, 2.0, 2, 10.0);
    events := events + [ClaimOf(2, 10.0)];
    BothHold(events, w, Leasing(l, 12.0), (sessions - {0})[2 := Holding(3, 12.0, [])]);
  }

  lemma BothHold(events: seq<Event>, w: World, i: Intent, sessions: map<nat, Session>)
    requires Stage(events, w, i, sessions, 2.0)
    requires 1 in sessions && sessions[1] == Holding(2, 12.0, [])
      && 2 in sessions && sessions[2] == Holding(3, 12.0, [])
    ensures Reaches(Start(map[], 0.0), CFG, events, w) && Holds(w, 1, IK) && Holds(w, 2, IK)
  {
    hide Reaches;
    assert w.sessions[1].claimed[0].ik == IK && w.sessions[2].claimed[0].ik == IK;
  }

  // ------------------------------------------------------------------ crashes

  lemma Crashes(events: seq<Event>, w: World, i: Intent, s: Session, clock: Time) returns (next: World)
    requires Stage(events, w, i, map[0 := s], clock)
    ensures Stage(events + [Crash(0)], next, i, map[], clock)
  {
    hide Reaches;
    next := w.(sessions := w.sessions - {0});
    assert next.sessions == map[];
    Extend(Start(map[], 0.0), CFG, events, w, Crash(0));
  }

  /** A claim, a crash, and a wait beyond the lease. */
  function LostClaim(): seq<Event> {
    [ClaimOf(0, 1.0)] + [Crash(0)] + [Tick(2.0)]
  }

  lemma LosesClaim(events: seq<Event>, w: World, i: Intent, clock: Time) returns (next: World)
    requires Stage(events, w, i, map[], clock) && Claimable(i, "q", clock)
    ensures Stage(events + LostClaim(), next, Leasing(i, clock + 1.0), map[], clock + 2.0)
    ensures Claimable(Leasing(i, clock + 1.0), "q", clock + 2.0)
  {
    assert i.queue == "q";
    hide Stage;
    var s := Holding(i.attempts + 1, clock + 1.0, []);
    var claimed := Claims(events, w, i, map[], clock, 0, 1.0);
    assert map[][0 := s] == map[0 := s];
    var crashed := Crashes(events + [ClaimOf(0, 1.0)], claimed, Leasing(i, clock + 1.0), s, clock);
    next := Ticks(events + [ClaimOf(0, 1.0)] + [Crash(0)], crashed, Leasing(i, clock + 1.0), map[], clock);
    assert events + [ClaimOf(0, 1.0)] + [Crash(0)] + [Tick(2.0)] == events + LostClaim();
  }

  /** The bound on attempts needs workers that settle.  With max_attempts 2, three
      claims whose workers crash leave the intent with three attempts, not dead. */
  lemma CrashesExceedTheBound() returns (w: World)
    ensures var first := [CommitBatch([Request(None, map[], map[], [IntentRequest("sub", RID, "q")])])];
      Reaches(Start(map[], 0.0), CFG, first + LostClaim() + LostClaim() + LostClaim(), w)
    ensures IK in w.db.intents && w.db.intents[IK].attempts == 3 > BackoffOf(CFG.subs["sub"]).maxAttempts
    ensures w.db.intents[IK].status == Leased && w.sessions == map[]
  {
    hide Reaches;
    var w0, i := IntentStaged();
    var events := [CommitBatch([Request(None, map[], map[], [IntentRequest("sub", RID, "q")])])];
    var w1 := LosesClaim(events, w0, i, 0.0);
    var w2 := LosesClaim(events + LostClaim(), w1, Leasing(i, 1.0), 2.0);
    w := LosesClaim(events + LostClaim() + LostClaim(), w2, Leasing(Leasing(i, 1.0), 3.0), 4.0);
  }
}
