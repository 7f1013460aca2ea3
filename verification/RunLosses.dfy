/** Bounded retry with workers that crash, outlive their leases and settle late:
    every such loss allows one claim more. */
module RunLosses {
  import opened Results
  import opened Tables
  import opened Commits
  import opened HeadRepair
  import opened Outbox
  import opened Worker
  import opened Runs
  import opened RunDelivery
  import opened RunRetry

  /** The handler always fails for the intent, and it is not redriven.  Nothing is
      asked of the workers. */
  ghost predicate FailsAlways(w: World, ik: IntentKey, e: Event) {
    match e
    case HandleNext(id, handled) => IsNext(w, id, ik) ==> handled.Raised?
    case Redrive(sub) => sub != ik.sub
    case _ => true
  }

  /** The session holds the intent under a lease that has not run out. */
  ghost predicate InLease(w: World, id: nat, ik: IntentKey) {
    id in w.sessions && Covers(w.sessions[id], ik) && w.sessions[id].until >= w.clock
  }

  /** The claims of the intent that a step loses: by a crash within the lease, by
      the lease running out, or by a lease that has run out when it is given. */
  ghost function LostNow(w: World, ik: IntentKey, e: Event): nat {
    match e
    case Tick(dt) => |set id | id in w.sessions && InLease(w, id, ik) && w.sessions[id].until < w.clock + dt|
    case Crash(id) => if InLease(w, id, ik) then 1 else 0
    case ClaimBatch(_, _, _, lease, sel) => if ik in sel && lease < 0.0 then 1 else 0
    case _ => 0
  }

  ghost predicate LossyStep(w: World, n: nat, cfg: Config, ik: IntentKey, e: Event, after: World, total: nat) {
    && ValidEncodings(w.enc) && Possible(w, e) && FailsAlways(w, ik, e)
    && after == Apply(w, cfg, e) && total == n + LostNow(w, ik, e)
  }

  /** A run from `w0` to `w` that loses `lost` claims of the intent. */
  ghost predicate LossyRun(w0: World, cfg: Config, ik: IntentKey, events: seq<Event>, w: World, lost: nat)
    decreases |events|
  {
    if events == [] then w == w0 && lost == 0
    else
      var front, last := events[..|events| - 1], events[|events| - 1];
      exists mid, m: nat :: LossyStep(mid, m, cfg, ik, last, w, lost) && LossyRun(w0, cfg, ik, front, mid, m)
  }

  // ----------------------------------------------------------------- invariant

  /** The session holds the intent as its `attempts`-th claim. */
  ghost predicate HoldsTry(s: Session, ik: IntentKey, attempts: int) {
    exists k: nat :: HoldsAt(s, ik, k) && s.claimed[k].attempts == attempts
  }

  /** A session that holds the intent holds it once, as one of its claims so far,
      and has decided, if anything, the retry or death due to that claim. */
  ghost predicate Sane(s: Session, ik: IntentKey, attempts: int, most: int) {
    exists k: nat ::
      && HoldsAt(s, ik, k) && s.claimed[k].attempts <= attempts
      && (k < |s.settlements| ==> Decided(s.settlements[k].outcome, s.claimed[k].attempts, most))
  }

  /** The session will ask for a retry when it settles. */
  ghost predicate Trying(s: Session, ik: IntentKey, most: int) {
    exists k: nat :: HoldsAt(s, ik, k) && s.claimed[k].attempts < most
  }

  ghost function Tries(w: World, ik: IntentKey, most: int): set<nat> {
    set id | id in w.sessions && Trying(w.sessions[id], ik, most)
  }

  /** The last claim is held by a session within its lease. */
  ghost predicate LastClaimLives(w: World, ik: IntentKey, i: Intent) {
    exists id :: LivesIn(w, id, ik, i)
  }

  ghost predicate LivesIn(w: World, id: nat, ik: IntentKey, i: Intent) {
    && id in w.sessions && HoldsTry(w.sessions[id], ik, i.attempts)
    && w.sessions[id].until >= w.clock && i.leasedUntil == Some(w.sessions[id].until)
  }

  /** Attempts made, and attempts that can still come without a further loss: one
      if the intent waits or its last claim is lost, one for every session that will
      retry, and one for every attempt below the limit not yet begun. */
  ghost function Potential(w: World, ik: IntentKey, most: int): int
    requires ik in w.db.intents
  {
    var i := w.db.intents[ik];
    i.attempts + Open(w, ik, i) + |Tries(w, ik, most)| + Unbegun(i.attempts, most)
  }

  ghost function Open(w: World, ik: IntentKey, i: Intent): nat {
    match i.status
    case Pending => 1
    case Leased => if LastClaimLives(w, ik, i) then 0 else 1
    case Dead => 0
  }

  function Unbegun(attempts: int, most: int): nat {
    if attempts < most - 1 then most - 1 - attempts else 0
  }

  ghost predicate Charged(w: World, ik: IntentKey, most: int, lost: nat) {
    if ik !in w.db.intents then Unheld(w, ik)
    else
      && Potential(w, ik, most) <= most + lost
      && forall id :: id in w.sessions && Covers(w.sessions[id], ik) ==>
           Sane(w.sessions[id], ik, w.db.intents[ik].attempts, most)
  }

  // --------------------------------------------------------------------- steps

  /** Steps that leave sessions, the clock and this intent's row alone. */
  lemma QuietCharged(w: World, after: World, ik: IntentKey, most: int, lost: nat)
    requires Charged(w, ik, most, lost) && after.sessions == w.sessions && after.clock == w.clock
    requires ik in w.db.intents <==> ik in after.db.intents
    requires ik in w.db.intents ==> after.db.intents[ik] == w.db.intents[ik]
    ensures Charged(after, ik, most, lost)
  {
    hide Sane, Trying, HoldsTry;
    if ik in w.db.intents {
      SameLives(w, after, ik, w.db.intents[ik]);
      assert Tries(after, ik, most) == Tries(w, ik, most);
    }
  }

  lemma SameLives(w: World, after: World, ik: IntentKey, i: Intent)
    requires after.sessions == w.sessions && after.clock == w.clock
    ensures LastClaimLives(after, ik, i) <==> LastClaimLives(w, ik, i)
  {
    hide HoldsTry;
    if id :| LivesIn(w, id, ik, i) { assert LivesIn(after, id, ik, i); }
    if id :| LivesIn(after, id, ik, i) { assert LivesIn(w, id, ik, i); }
  }

  lemma CommitCharged(w: World, cfg: Config, ik: IntentKey, reqs: seq<CommitRequest>, most: int, lost: nat)
    requires ValidEncodings(w.enc) && Possible(w, CommitBatch(reqs))
    requires Charged(w, ik, most, lost) && most >= 1
    ensures Charged(AfterCommit(w, cfg, reqs), ik, most, lost)
  {
    hide AfterCommit, Charged;
    var made := CommitGrows(w, cfg, reqs);
    var after := AfterCommit(w, cfg, reqs);
    if ik in made {
      NewIntentIsCharged(w, after, ik, most, lost);
    } else {
      QuietCharged(w, after, ik, most, lost);
    }
  }

  lemma NewIntentIsCharged(w: World, after: World, ik: IntentKey, most: int, lost: nat)
    requires Charged(w, ik, most, lost) && ik !in w.db.intents && after.sessions == w.sessions && most >= 1
    requires ik in after.db.intents && NeverTried(after.db.intents[ik])
    ensures Charged(after, ik, most, lost)
  {
    NobodyTries(after, ik, most);
  }

  lemma NobodyTries(w: World, ik: IntentKey, most: int)
    requires Unheld(w, ik)
    ensures Tries(w, ik, most) == {}
  {
    hide Covers, Trying;
    forall id | id in w.sessions ensures !Trying(w.sessions[id], ik, most) { NotTrying(w.sessions[id], ik, most); }
  }

  lemma NotTrying(s: Session, ik: IntentKey, most: int)
    requires !Covers(s, ik)
    ensures !Trying(s, ik, most)
  {
  }

  /** Time passes: the last claim is lost only if its session's lease runs out. */
  lemma TickCharged(w: World, ik: IntentKey, dt: real, most: int, lost: nat)
    requires Charged(w, ik, most, lost) && dt >= 0.0
    ensures Charged(w.(clock := w.clock + dt), ik, most, lost + LostNow(w, ik, Tick(dt)))
  {
    hide Sane, Trying, HoldsTry;
    var after := w.(clock := w.clock + dt);
    if ik in w.db.intents {
      var i := w.db.intents[ik];
      assert Tries(after, ik, most) == Tries(w, ik, most);
      if id :| LivesIn(w, id, ik, i) {
        HolderCovers(w.sessions[id], ik, i.attempts);
        if w.sessions[id].until >= w.clock + dt {
          assert LivesIn(after, id, ik, i);
        } else {
          var gone := set x | x in w.sessions && InLease(w, x, ik) && w.sessions[x].until < w.clock + dt;
          assert InLease(w, id, ik) && id in gone;
          assert {id} <= gone;
          SubsetSize({id}, gone);
        }
      }
    }
  }

  lemma HolderCovers(s: Session, ik: IntentKey, attempts: int)
    requires HoldsTry(s, ik, attempts)
    ensures Covers(s, ik)
  {
  }

  lemma SubsetSize<T>(a: set<T>, b: set<T>)
    requires a <= b
    ensures |a| <= |b|
  {
    assert b == a + (b - a);
  }

  /** A claim from a waiting row uses its waiting; one from an expired lease uses
      the loss that was charged for it. */
  lemma ClaimCharged(w: World, ik: IntentKey, id: nat, queue: string, limit: nat, lease: Time, sel: seq<IntentKey>,
                     most: int, lost: nat)
    requires Possible(w, ClaimBatch(id, queue, limit, lease, sel)) && Charged(w, ik, most, lost)
    ensures Charged(AfterClaim(w, id, lease, sel), ik, most,
                    lost + LostNow(w, ik, ClaimBatch(id, queue, limit, lease, sel)))
  {
    hide ClaimSelects, Charged;
    ClaimedCovers(w, id, lease, sel, ik);
    if ik in sel {
      SelectedIsClaimable(sel, w.db.intents, w.db.log, queue, limit, w.clock, ik);
      TakenCharged(w, ik, id, queue, limit, lease, sel, most, lost);
    } else {
      PassedCharged(w, ik, id, lease, sel, most, lost);
    }
  }

  /** The session made by a claim holds the intent once, as the next attempt. */
  lemma NewSessionHolds(w: World, ik: IntentKey, id: nat, queue: string, limit: nat, lease: Time, sel: seq<IntentKey>)
      returns (k: nat)
    requires ClaimSelects(sel, w.db.intents, w.db.log, queue, limit, w.clock) && ik in sel
    ensures ik in w.db.intents
    ensures var s := AfterClaim(w, id, lease, sel).sessions[id];
      HoldsAt(s, ik, k) && s.claimed[k].attempts == w.db.intents[ik].attempts + 1 && s.settlements == []
  {
    k :| 0 <= k < |sel| && sel[k] == ik;
    SelectedOnce(sel, w.db.intents, w.db.log, queue, limit, w.clock, k);
  }

  lemma TakenCharged(w: World, ik: IntentKey, id: nat, queue: string, limit: nat, lease: Time, sel: seq<IntentKey>,
                     most: int, lost: nat)
    requires Possible(w, ClaimBatch(id, queue, limit, lease, sel)) && Charged(w, ik, most, lost) && ik in sel
    requires ik in w.db.intents && Claimable(w.db.intents[ik], queue, w.clock)
    ensures Charged(AfterClaim(w, id, lease, sel), ik, most, lost + if lease < 0.0 then 1 else 0)
  {
    hide ClaimSelects, Covers;
    var after, i := AfterClaim(w, id, lease, sel), w.db.intents[ik];
    var k := NewSessionHolds(w, ik, id, queue, limit, lease, sel);
    var s := after.sessions[id];
    assert Open(w, ik, i) == 1 by { ClaimableIsOpen(w, ik, i, queue); }
    NewTry(w, ik, id, lease, sel, k, most);
    if lease >= 0.0 { assert LivesIn(after, id, ik, after.db.intents[ik]); }
    assert Sane(s, ik, i.attempts + 1, most);
    forall x | x in w.sessions && Covers(w.sessions[x], ik) ensures Sane(after.sessions[x], ik, i.attempts + 1, most) {
      assert Sane(w.sessions[x], ik, i.attempts, most);
    }
  }

  lemma ClaimableIsOpen(w: World, ik: IntentKey, i: Intent, queue: string)
    requires Claimable(i, queue, w.clock)
    ensures Open(w, ik, i) == 1
  {
  }

  lemma NewTry(w: World, ik: IntentKey, id: nat, lease: Time, sel: seq<IntentKey>, k: nat, most: int)
    requires id !in w.sessions && ik in w.db.intents
    requires var s := AfterClaim(w, id, lease, sel).sessions[id];
      HoldsAt(s, ik, k) && s.claimed[k].attempts == w.db.intents[ik].attempts + 1
    ensures |Tries(AfterClaim(w, id, lease, sel), ik, most)|
      == |Tries(w, ik, most)| + if w.db.intents[ik].attempts + 1 < most then 1 else 0
  {
    var after := AfterClaim(w, id, lease, sel);
    var s := after.sessions[id];
    if w.db.intents[ik].attempts + 1 < most {
      assert Trying(s, ik, most);
      assert Tries(after, ik, most) == Tries(w, ik, most) + {id};
    } else {
      assert !Trying(s, ik, most);
      assert Tries(after, ik, most) == Tries(w, ik, most);
    }
  }

  /** A claim of other intents. */
  lemma PassedCharged(w: World, ik: IntentKey, id: nat, lease: Time, sel: seq<IntentKey>, most: int, lost: nat)
    requires id !in w.sessions && Charged(w, ik, most, lost) && ik !in sel
    requires !Covers(AfterClaim(w, id, lease, sel).sessions[id], ik)
    ensures Charged(AfterClaim(w, id, lease, sel), ik, most, lost)
  {
    hide Sane;
    var after := AfterClaim(w, id, lease, sel);
    if ik in w.db.intents {
      var i := w.db.intents[ik];
      NotTrying(after.sessions[id], ik, most);
      assert Tries(after, ik, most) == Tries(w, ik, most);
      if x :| LivesIn(w, x, ik, i) { assert LivesIn(after, x, ik, i); }
    }
  }

  lemma HandleCharged(w: World, cfg: Config, ik: IntentKey, id: nat, handled: Handled, lost: nat)
    requires ik.sub in cfg.subs && Possible(w, HandleNext(id, handled)) && (IsNext(w, id, ik) ==> handled.Raised?)
    requires AllInStep(w) && Charged(w, ik, Most(cfg, ik), lost)
    ensures Charged(AfterHandle(w, cfg, id, handled), ik, Most(cfg, ik), lost)
  {
    hide Sane, Trying, HoldsTry;
    var most, after := Most(cfg, ik), AfterHandle(w, cfg, id, handled);
    forall a | a in w.sessions ensures Covers(after.sessions[a], ik) <==> Covers(w.sessions[a], ik) {}
    if ik in w.db.intents {
      var i := w.db.intents[ik];
      forall a | a in w.sessions
        ensures Trying(after.sessions[a], ik, most) <==> Trying(w.sessions[a], ik, most)
        ensures HoldsTry(after.sessions[a], ik, i.attempts) <==> HoldsTry(w.sessions[a], ik, i.attempts)
      {
        SameClaimed(w.sessions[a], after.sessions[a], ik, i.attempts, most);
      }
      assert Tries(after, ik, most) == Tries(w, ik, most);
      if x :| LivesIn(w, x, ik, i) { assert LivesIn(after, x, ik, i); }
      forall a | a in w.sessions && Covers(w.sessions[a], ik) ensures Sane(after.sessions[a], ik, i.attempts, most) {
        assert Sane(w.sessions[a], ik, i.attempts, most);
        if a == id { HandledSane(w, cfg, ik, id, handled, i.attempts); }
      }
    }
  }

  lemma SameClaimed(s: Session, t: Session, ik: IntentKey, attempts: int, most: int)
    requires s.claimed == t.claimed
    ensures Trying(t, ik, most) <==> Trying(s, ik, most)
    ensures HoldsTry(t, ik, attempts) <==> HoldsTry(s, ik, attempts)
  {
    forall k: nat ensures HoldsAt(s, ik, k) <==> HoldsAt(t, ik, k) {}
  }

  lemma HandledSane(w: World, cfg: Config, ik: IntentKey, id: nat, handled: Handled, attempts: int)
    requires ik.sub in cfg.subs && Possible(w, HandleNext(id, handled)) && (IsNext(w, id, ik) ==> handled.Raised?)
    requires Sane(w.sessions[id], ik, attempts, Most(cfg, ik))
    ensures Sane(AfterHandle(w, cfg, id, handled).sessions[id], ik, attempts, Most(cfg, ik))
  {
    var s, t := w.sessions[id], AfterHandle(w, cfg, id, handled).sessions[id];
    var k: nat :| HoldsAt(s, ik, k) && s.claimed[k].attempts <= attempts
      && (k < |s.settlements| ==> Decided(s.settlements[k].outcome, s.claimed[k].attempts, Most(cfg, ik)));
    assert HoldsAt(t, ik, k);
    if k == |s.settlements| { assert IsNext(w, id, ik); }
  }

  lemma SettleCharged(w: World, ik: IntentKey, id: nat, most: int, lost: nat)
    requires Possible(w, SettleSession(id)) && AllInStep(w) && Charged(w, ik, most, lost)
    ensures Charged(AfterSettle(w, id), ik, most, lost)
  {
    hide Charged;
    if Covers(w.sessions[id], ik) {
      HolderSettlesCharged(w, ik, id, most, lost);
    } else {
      OtherSettles(w, ik, id, most, lost);
    }
  }

  lemma OtherSettles(w: World, ik: IntentKey, id: nat, most: int, lost: nat)
    requires Possible(w, SettleSession(id)) && AllInStep(w) && Charged(w, ik, most, lost)
    requires !Covers(w.sessions[id], ik)
    ensures Charged(AfterSettle(w, id), ik, most, lost)
  {
    hide Sane, SettleAll;
    var s := w.sessions[id];
    assert InStep(s);
    forall i | 0 <= i < |s.settlements| ensures s.settlements[i].ik != ik { assert s.claimed[i].ik != ik; }
    SettleFrame(w.db.intents, s.settlements, ik);
    Leaves(w, AfterSettle(w, id), ik, id, most, lost);
  }

  /** A session that does not hold the intent goes. */
  lemma Leaves(w: World, after: World, ik: IntentKey, id: nat, most: int, lost: nat)
    requires Charged(w, ik, most, lost) && id in w.sessions && !Covers(w.sessions[id], ik)
    requires after.sessions == w.sessions - {id} && after.clock == w.clock
    requires ik in w.db.intents <==> ik in after.db.intents
    requires ik in w.db.intents ==> after.db.intents[ik] == w.db.intents[ik]
    ensures Charged(after, ik, most, lost)
  {
    hide Sane;
    if ik in w.db.intents {
      var i := w.db.intents[ik];
      NotTrying(w.sessions[id], ik, most);
      assert Tries(after, ik, most) == Tries(w, ik, most);
      if x :| LivesIn(w, x, ik, i) {
        HolderCovers(w.sessions[x], ik, i.attempts);
        assert LivesIn(after, x, ik, i);
      }
    }
  }

  /** The row a holder settles waits, if it asked for a retry, or is dead. */
  lemma HeldRowSettles(w: World, ik: IntentKey, id: nat, attempts: int, most: int)
    requires Possible(w, SettleSession(id)) && InStep(w.sessions[id]) && ik in w.db.intents
    requires Sane(w.sessions[id], ik, attempts, most)
    ensures ik in AfterSettle(w, id).db.intents
    ensures var i := AfterSettle(w, id).db.intents[ik];
      && i.attempts == w.db.intents[ik].attempts
      && (i.status == Dead || (i.status == Pending && Trying(w.sessions[id], ik, most)))
  {
    hide SettleAll;
    var s := w.sessions[id];
    var k: nat :| HoldsAt(s, ik, k) && s.claimed[k].attempts <= attempts
      && (k < |s.settlements| ==> Decided(s.settlements[k].outcome, s.claimed[k].attempts, most));
    forall j | 0 <= j < |s.settlements| && j != k ensures s.settlements[j].ik != s.settlements[k].ik {
      assert s.settlements[j].ik == s.claimed[j].ik;
    }
    SettleApplies(w.db.intents, s.settlements, k);
  }

  /** A holder settles, in time or late: the retry it asks for was counted. */
  lemma HolderSettlesCharged(w: World, ik: IntentKey, id: nat, most: int, lost: nat)
    requires Possible(w, SettleSession(id)) && AllInStep(w) && Charged(w, ik, most, lost)
    requires Covers(w.sessions[id], ik)
    ensures Charged(AfterSettle(w, id), ik, most, lost)
  {
    hide SettleAll, LastClaimLives, Trying, Sane, InStep, Covers;
    var after := AfterSettle(w, id);
    assert ik in w.db.intents && Sane(w.sessions[id], ik, w.db.intents[ik].attempts, most) && InStep(w.sessions[id]);
    HeldRowSettles(w, ik, id, w.db.intents[ik].attempts, most);
    assert Tries(after, ik, most) == Tries(w, ik, most) - {id};
    SubsetSize(Tries(after, ik, most), Tries(w, ik, most));
    hide Tries;
  }

  lemma CrashCharged(w: World, ik: IntentKey, id: nat, most: int, lost: nat)
    requires id in w.sessions && Charged(w, ik, most, lost)
    ensures Charged(w.(sessions := w.sessions - {id}), ik, most, lost + LostNow(w, ik, Crash(id)))
  {
    hide Sane, Trying;
    var after := w.(sessions := w.sessions - {id});
    if ik in w.db.intents {
      var i := w.db.intents[ik];
      assert Tries(after, ik, most) <= Tries(w, ik, most);
      SubsetSize(Tries(after, ik, most), Tries(w, ik, most));
      if x :| LivesIn(w, x, ik, i) {
        HolderCovers(w.sessions[x], ik, i.attempts);
        if x != id { assert LivesIn(after, x, ik, i); } else { assert InLease(w, id, ik); }
      }
    }
  }

  lemma StepCharged(w: World, cfg: Config, ik: IntentKey, e: Event, lost: nat)
    requires ValidEncodings(w.enc) && Possible(w, e) && FailsAlways(w, ik, e)
    requires ik.sub in cfg.subs && AllInStep(w) && Charged(w, ik, Most(cfg, ik), lost)
    ensures Charged(Apply(w, cfg, e), ik, Most(cfg, ik), lost + LostNow(w, ik, e))
  {
    hide Charged, ClaimSelects, RebuiltHeads, AllInStep, Covers, InLease;
    var most := Most(cfg, ik);
    match e
    case Tick(dt) => TickCharged(w, ik, dt, most, lost);
    case CommitBatch(reqs) => CommitCharged(w, cfg, ik, reqs, most, lost);
    case ClaimBatch(id, queue, limit, lease, sel) => ClaimCharged(w, ik, id, queue, limit, lease, sel, most, lost);
    case HandleNext(id, handled) => HandleCharged(w, cfg, ik, id, handled, lost);
    case SettleSession(id) => SettleCharged(w, ik, id, most, lost);
    case Crash(id) => CrashCharged(w, ik, id, most, lost);
    case _ => QuietCharged(w, Apply(w, cfg, e), ik, most, lost);
  }

  // ------------------------------------------------------------------ whole runs

  lemma {:induction false} LossyRunIsRun(w0: World, cfg: Config, ik: IntentKey, events: seq<Event>, w: World, lost: nat)
    requires LossyRun(w0, cfg, ik, events, w, lost)
    ensures Reaches(w0, cfg, events, w)
    decreases |events|
  {
    if events != [] {
      var front, last := events[..|events| - 1], events[|events| - 1];
      var mid, m: nat :| LossyStep(mid, m, cfg, ik, last, w, lost) && LossyRun(w0, cfg, ik, front, mid, m);
      hide Apply, Possible, FailsAlways;
      LossyRunIsRun(w0, cfg, ik, front, mid, m);
    }
  }

  lemma {:induction false} LossyRunIsCharged(
      enc: Encodings, clock: Time, cfg: Config, ik: IntentKey, events: seq<Event>, w: World, lost: nat)
    requires ValidEncodings(enc) && ik.sub in cfg.subs && LossyRun(Start(enc, clock), cfg, ik, events, w, lost)
    ensures AllInStep(w) && Charged(w, ik, Most(cfg, ik), lost) && ik !in w.returned
    decreases |events|
  {
    hide Charged, AllInStep, Apply, Possible, FailsAlways, Start;
    if events == [] {
      StartIsCharged(enc, clock, cfg, ik);
    } else {
      var front, last := events[..|events| - 1], events[|events| - 1];
      var mid, m: nat :| LossyStep(mid, m, cfg, ik, last, w, lost)
        && LossyRun(Start(enc, clock), cfg, ik, front, mid, m);
      hide LossyRun;
      LossyRunIsCharged(enc, clock, cfg, ik, front, mid, m);
      StepCharged(mid, cfg, ik, last, m);
      StepKeepsOrder(mid, cfg, last);
      StillNeverReturns(mid, cfg, ik, last);
    }
  }

  lemma StartIsCharged(enc: Encodings, clock: Time, cfg: Config, ik: IntentKey)
    requires ik.sub in cfg.subs
    ensures var w := Start(enc, clock); AllInStep(w) && Charged(w, ik, Most(cfg, ik), 0) && ik !in w.returned
  {
  }

  lemma StillNeverReturns(w: World, cfg: Config, ik: IntentKey, e: Event)
    requires ValidEncodings(w.enc) && Possible(w, e) && FailsAlways(w, ik, e) && ik !in w.returned
    ensures ik !in Apply(w, cfg, e).returned
  {
    hide Transact, Record, CreatedBy, RebuiltHeads, ClaimSelects, SettleAll, Redriven, Covers;
  }

  /** In every run without redrives, whatever workers do, an intent whose handler
      always fails stays present, and is claimed at most max(1, max_attempts) times
      plus once for every claim of it that was lost to a crash or an expired lease,
      late settlements included. */
  lemma EveryRunChargesLosses(
      enc: Encodings, clock: Time, cfg: Config, ik: IntentKey, events: seq<Event>, w: World, lost: nat)
    requires ValidEncodings(enc) && ik.sub in cfg.subs
    requires LossyRun(Start(enc, clock), cfg, ik, events, w, lost) && ik in w.created
    ensures ik in w.db.intents && ik in w.claims
    ensures w.claims[ik] <= AtLeastOne(BackoffOf(cfg.subs[ik.sub]).maxAttempts) + lost
  {
    LossyRunIsRun(Start(enc, clock), cfg, ik, events, w, lost);
    LossyRunIsCharged(enc, clock, cfg, ik, events, w, lost);
    EveryRunConserves(enc, clock, cfg, events, w);
    hide LossyRun, Reaches, Tries, LastClaimLives;
    assert ik in w.db.intents;
  }
}
