/** Whole runs: any interleaving of commits, claims, deliveries, settlements,
    crashes, redrives, rebuilds and reconfigurations over one store. */
module Runs {
  import opened Tables
  import opened Commits
  import opened Agreement
  import opened Recovery
  import opened HeadRepair
  import opened Outbox
  import opened Worker

  /** A worker between its claim and its settle: what it claimed, until when it
      holds the lease, and the settlements decided so far. */
  datatype Session = Session(claimed: seq<Claimed>, until: Time, settlements: seq<Settlement>)

  /** The store, the open worker sessions, and what has been observed so far:
      the revisions reported committed, the intents created by non-replayed
      commits, those removed by a delivered settlement, those whose handler
      returned, and how often each was claimed since creation or redrive. */
  datatype World = World(
    db: Db, enc: Encodings, grid: Grid, clock: Time, sessions: map<nat, Session>,
    hist: History, created: set<IntentKey>, delivered: set<IntentKey>, returned: set<IntentKey>,
    claims: map<IntentKey, nat>)

  datatype Event =
    | Tick(dt: real)
    | CommitBatch(reqs: seq<CommitRequest>)
    | Reopen(enc: Encodings)
    | Rebuild(scope: Scope)
    | ClaimBatch(id: nat, queue: string, limit: nat, lease: Time, sel: seq<IntentKey>)
    | HandleNext(id: nat, handled: Handled)
    | SettleSession(id: nat)
    | Crash(id: nat)
    | Redrive(sub: string)

  datatype Config = Config(subs: Subscriptions, maxBatch: nat)

  predicate MultipleOf(a: nat, b: nat) {
    b >= 1 && a % b == 0
  }

  /** What may happen next. Requests come from planning; claims follow the claim
      rule; a worker settles once it has handled all it claimed; a stream is
      reopened only with a multiple of its earlier `every`. */
  ghost predicate Possible(w: World, e: Event) {
    match e
    case Tick(dt) => dt >= 0.0
    case CommitBatch(reqs) => forall i :: 0 <= i < |reqs| ==> Planned(reqs[i])
    case Reopen(enc) =>
      ValidEncodings(enc)
      && forall s :: s in enc && enc[s].DeltaEncoded? ==> MultipleOf(enc[s].every, GridOf(w.grid, s))
    case Rebuild(_) => true
    case ClaimBatch(id, queue, limit, _, sel) =>
      id !in w.sessions && limit >= 1 && ClaimSelects(sel, w.db.intents, w.db.log, queue, limit, w.clock)
    case HandleNext(id, _) => id in w.sessions && |w.sessions[id].settlements| < |w.sessions[id].claimed|
    case SettleSession(id) => id in w.sessions && |w.sessions[id].settlements| == |w.sessions[id].claimed|
    case Crash(id) => id in w.sessions
    case Redrive(_) => true
  }

  // ------------------------------------------------- what commits are recorded

  /** The history extended by every request reported committed and not replayed. */
  function Record(hist: History, reqs: seq<CommitRequest>, results: seq<CommitResult>): History
    requires |reqs| == |results|
  {
    if reqs == [] then hist
    else
      var n := |reqs| - 1;
      var h := Record(hist, reqs[..n], results[..n]);
      if results[n].replayed then h
      else h[reqs[n].key := RevsOf(h, reqs[n].key) + [RevisionOf(reqs[n], results[n].at)]]
  }

  function IntentKeys(irs: seq<IntentRequest>): set<IntentKey> {
    set i | 0 <= i < |irs| :: IntentKey(irs[i].sub, irs[i].rid)
  }

  /** The intents of every request reported committed and not replayed. */
  function CreatedBy(reqs: seq<CommitRequest>, results: seq<CommitResult>): set<IntentKey>
    requires |reqs| == |results|
  {
    if reqs == [] then {}
    else
      var n := |reqs| - 1;
      CreatedBy(reqs[..n], results[..n]) + if results[n].replayed then {} else IntentKeys(reqs[n].intents)
  }

  // ------------------------------------------------------------------- effects

  function AfterCommit(w: World, cfg: Config, reqs: seq<CommitRequest>): World
    requires ValidEncodings(w.enc)
  {
    var (db, r) := Transact(w.db, w.enc, cfg.maxBatch, reqs, w.clock);
    if r.Err? || |r.value| != |reqs| then w.(db := db)
    else
      var made := CreatedBy(reqs, r.value);
      w.(db := db, hist := Record(w.hist, reqs, r.value), created := w.created + made,
         claims := w.claims + map ik | ik in made :: 0)
  }

  function AfterReopen(w: World, enc: Encodings): World {
    w.(enc := enc, grid := w.grid + map s | s in enc && enc[s].DeltaEncoded? :: enc[s].every)
  }

  function AfterClaim(w: World, id: nat, lease: Time, sel: seq<IntentKey>): World {
    w.(db := w.db.(intents := MarkLeased(w.db.intents, sel, w.clock + lease)),
       sessions := w.sessions[id := Session(ClaimedAll(w.db.intents, sel), w.clock + lease, [])],
       claims := map ik | ik in w.claims :: if ik in sel then w.claims[ik] + 1 else w.claims[ik])
  }

  function AfterHandle(w: World, cfg: Config, id: nat, handled: Handled): World
    requires id in w.sessions && |w.sessions[id].settlements| < |w.sessions[id].claimed|
  {
    var s := w.sessions[id];
    var c := s.claimed[|s.settlements|];
    w.(sessions := w.sessions[id := s.(settlements := s.settlements + [SettlementFor(cfg.subs, c, handled, w.clock)])],
       returned := w.returned + if handled.Returned? && c.ik.sub in cfg.subs then {c.ik} else {})
  }

  /** The present intents that a settlement list reports delivered. */
  function RemovedBy(intents: Intents, ss: seq<Settlement>): set<IntentKey> {
    set i | 0 <= i < |ss| && ss[i].outcome.Delivered? && ss[i].ik in intents :: ss[i].ik
  }

  function AfterSettle(w: World, id: nat): World
    requires id in w.sessions
  {
    var ss := w.sessions[id].settlements;
    w.(db := w.db.(intents := SettleAll(w.db.intents, ss)),
       sessions := w.sessions - {id},
       delivered := w.delivered + RemovedBy(w.db.intents, ss))
  }

  function AfterRedrive(w: World, sub: string): World {
    w.(db := w.db.(intents := Redriven(w.db.intents, sub, w.clock)),
       claims := map ik | ik in w.claims ::
         if ik in w.db.intents && Redrivable(ik, w.db.intents[ik], sub) then 0 else w.claims[ik])
  }

  ghost function Apply(w: World, cfg: Config, e: Event): World
    requires ValidEncodings(w.enc) && Possible(w, e)
  {
    match e
    case Tick(dt) => w.(clock := w.clock + dt)
    case CommitBatch(reqs) => AfterCommit(w, cfg, reqs)
    case Reopen(enc) => AfterReopen(w, enc)
    case Rebuild(scope) => w.(db := w.db.(heads := RebuiltHeads(w.db.log, w.db.heads, scope)))
    case ClaimBatch(id, _, _, lease, sel) => AfterClaim(w, id, lease, sel)
    case HandleNext(id, handled) => AfterHandle(w, cfg, id, handled)
    case SettleSession(id) => AfterSettle(w, id)
    case Crash(id) => w.(sessions := w.sessions - {id})
    case Redrive(sub) => AfterRedrive(w, sub)
  }

  function Start(enc: Encodings, clock: Time): World {
    World(Db(map[], map[], map[], map[]), enc, map s | s in enc && enc[s].DeltaEncoded? :: enc[s].every,
          clock, map[], map[], {}, {}, {}, map[])
  }

  /** `w` is the world after the run `events` from `w0`. */
  ghost predicate Reaches(w0: World, cfg: Config, events: seq<Event>, w: World)
    decreases |events|
  {
    if events == [] then w == w0
    else exists mid ::
      && Reaches(w0, cfg, events[..|events| - 1], mid)
      && ValidEncodings(mid.enc) && Possible(mid, events[|events| - 1])
      && w == Apply(mid, cfg, events[|events| - 1])
  }
}
