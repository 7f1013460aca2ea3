/** Bounded retry over whole runs: an intent whose handler always fails, among
    any other commits, workers, rebuilds and reopenings. */
module RunRetry {
  import opened Results
  import opened Tables
  import opened Commits
  import opened HeadRepair
  import opened Outbox
  import opened Worker
  import opened Runs
  import opened RunDelivery

  /** What "the handler always fails and its workers always settle" asks of a step:
      no handler returns for the intent, no session that holds it crashes or sees
      its lease run out, it is leased for some time, and it is not redriven. */
  ghost predicate FailsAgain(w: World, ik: IntentKey, e: Event) {
    match e
    case Tick(dt) =>
      forall id :: id in w.sessions && Covers(w.sessions[id], ik) ==> w.clock + dt <= w.sessions[id].until
    case ClaimBatch(_, _, _, lease, sel) => ik in sel ==> lease >= 0.0
    case HandleNext(id, handled) => IsNext(w, id, ik) ==> handled.Raised?
    case Crash(id) => id in w.sessions ==> !Covers(w.sessions[id], ik)
    case Redrive(sub) => sub != ik.sub
    case _ => true
  }

  /** The session's next delivery is the intent. */
  predicate IsNext(w: World, id: nat, ik: IntentKey) {
    && id in w.sessions && |w.sessions[id].settlements| < |w.sessions[id].claimed|
    && w.sessions[id].claimed[|w.sessions[id].settlements|].ik == ik
  }

  /** The delivery of the intent that a step makes. */
  function DeliveredNow(w: World, ik: IntentKey, e: Event): nat {
    if e.HandleNext? && IsNext(w, e.id, ik) then 1 else 0
  }

  /** One such step, with the deliveries of the intent counted. */
  ghost predicate FailingStep(w: World, n: nat, cfg: Config, ik: IntentKey, e: Event, after: World, total: nat) {
    && ValidEncodings(w.enc) && Possible(w, e) && FailsAgain(w, ik, e)
    && after == Apply(w, cfg, e) && total == n + DeliveredNow(w, ik, e)
  }

  /** A run of such steps from `w0` to `w` that delivers the intent `n` times. */
  ghost predicate FailingRun(w0: World, cfg: Config, ik: IntentKey, events: seq<Event>, w: World, n: nat)
    decreases |events|
  {
    if events == [] then w == w0 && n == 0
    else
      var front, last := events[..|events| - 1], events[|events| - 1];
      exists mid, m: nat :: FailingStep(mid, m, cfg, ik, last, w, n) && FailingRun(w0, cfg, ik, front, mid, m)
  }

  function Most(cfg: Config, ik: IntentKey): int
    requires ik.sub in cfg.subs
  {
    AtLeastOne(BackoffOf(cfg.subs[ik.sub]).maxAttempts)
  }

  // ----------------------------------------------------------------- invariant

  /** The session holds the intent once, at position `k`. */
  predicate HoldsAt(s: Session, ik: IntentKey, k: nat) {
    && k < |s.claimed| && s.claimed[k].ik == ik
    && forall j :: 0 <= j < |s.claimed| && j != k ==> s.claimed[j].ik != ik
  }

  /** A session that holds the intent holds the row's lease and attempt count, and
      the settlement it has decided, if any, is the retry or death due now. */
  ghost predicate Fits(s: Session, i: Intent, ik: IntentKey, clock: Time, most: int, n: nat) {
    && i.status == Leased && i.leasedUntil == Some(s.until) && s.until >= clock
    && exists k: nat ::
      && HoldsAt(s, ik, k)
      && s.claimed[k].attempts == i.attempts
      && (if k < |s.settlements| then Decided(s.settlements[k].outcome, i.attempts, most) && n == i.attempts
          else n + 1 == i.attempts)
  }

  predicate Decided(o: Outcome, attempts: int, most: int) {
    if attempts >= most then o.DeadLetter? else o.Retry?
  }

  ghost predicate Unheld(w: World, ik: IntentKey) {
    forall id :: id in w.sessions ==> !Covers(w.sessions[id], ik)
  }

  ghost predicate HeldBy(w: World, ik: IntentKey, h: nat) {
    h in w.sessions && Covers(w.sessions[h], ik)
    && forall id :: id in w.sessions && id != h ==> !Covers(w.sessions[id], ik)
  }

  /** The intent is not there yet, waits below its limit, is dead at its limit, or
      is held by one session. */
  ghost predicate Bounded(w: World, ik: IntentKey, most: int, n: nat) {
    if ik !in w.db.intents then Unheld(w, ik) && n == 0
    else
      var i := w.db.intents[ik];
      && 0 <= i.attempts <= most
      && match i.status
         case Pending => Unheld(w, ik) && n == i.attempts < most
         case Dead => Unheld(w, ik) && n == i.attempts == most
         case Leased => exists h :: HeldBy(w, ik, h) && Fits(w.sessions[h], i, ik, w.clock, most, n)
  }

  /** Every session's settlements follow what it claimed. */
  ghost predicate AllInStep(w: World) {
    forall id :: id in w.sessions ==> InStep(w.sessions[id])
  }

  lemma StepKeepsOrder(w: World, cfg: Config, e: Event)
    requires ValidEncodings(w.enc) && Possible(w, e) && AllInStep(w)
    ensures AllInStep(Apply(w, cfg, e))
  {
    hide Transact, Record, CreatedBy, RebuiltHeads, ClaimSelects, SettleAll, Redriven;
    if e.HandleNext? { assert InStep(w.sessions[e.id]); }
  }

  // --------------------------------------------------------------------- steps

  /** Steps that leave sessions and this intent's row alone, with the clock within
      the holder's lease. */
  lemma QuietBound(w: World, after: World, ik: IntentKey, most: int, n: nat)
    requires Bounded(w, ik, most, n) && after.sessions == w.sessions
    requires ik in w.db.intents <==> ik in after.db.intents
    requires ik in w.db.intents ==> after.db.intents[ik] == w.db.intents[ik]
    requires forall id :: id in w.sessions && Covers(w.sessions[id], ik) ==>
      after.clock <= w.sessions[id].until || after.clock == w.clock
    ensures Bounded(after, ik, most, n)
  {
    if ik in w.db.intents && w.db.intents[ik].status == Leased {
      var h :| HeldBy(w, ik, h) && Fits(w.sessions[h], w.db.intents[ik], ik, w.clock, most, n);
      assert HeldBy(after, ik, h) && Fits(after.sessions[h], after.db.intents[ik], ik, after.clock, most, n);
    }
  }

  lemma CommitBound(w: World, cfg: Config, ik: IntentKey, reqs: seq<CommitRequest>, most: int, n: nat)
    requires ValidEncodings(w.enc) && Possible(w, CommitBatch(reqs))
    requires Bounded(w, ik, most, n) && most >= 1
    ensures Bounded(AfterCommit(w, cfg, reqs), ik, most, n)
  {
    hide AfterCommit, Bounded;
    var made := CommitGrows(w, cfg, reqs);
    var after := AfterCommit(w, cfg, reqs);
    if ik in made {
      NewIntentIsBounded(w, after, ik, most, n);
    } else {
      QuietBound(w, after, ik, most, n);
    }
  }

  lemma NewIntentIsBounded(w: World, after: World, ik: IntentKey, most: int, n: nat)
    requires Bounded(w, ik, most, n) && ik !in w.db.intents && after.sessions == w.sessions && most >= 1
    requires ik in after.db.intents && NeverTried(after.db.intents[ik])
    ensures Bounded(after, ik, most, n)
  {
  }

  lemma ClaimBound(w: World, ik: IntentKey, id: nat, queue: string, limit: nat, lease: Time, sel: seq<IntentKey>,
                   most: int, n: nat)
    requires Possible(w, ClaimBatch(id, queue, limit, lease, sel)) && (ik in sel ==> lease >= 0.0)
    requires Bounded(w, ik, most, n)
    ensures Bounded(AfterClaim(w, id, lease, sel), ik, most, n)
  {
    hide ClaimSelects;
    var after := AfterClaim(w, id, lease, sel);
    ClaimedCovers(w, id, lease, sel, ik);
    if ik in sel {
      SelectedIsClaimable(sel, w.db.intents, w.db.log, queue, limit, w.clock, ik);
      var k :| 0 <= k < |sel| && sel[k] == ik;
      SelectedOnce(sel, w.db.intents, w.db.log, queue, limit, w.clock, k);
      assert HoldsAt(after.sessions[id], ik, k);
      LeaseIsNotOver(w, ik, most, n);
      assert HeldBy(after, ik, id) && Fits(after.sessions[id], after.db.intents[ik], ik, after.clock, most, n);
    } else if ik in w.db.intents && w.db.intents[ik].status == Leased {
      var h :| HeldBy(w, ik, h) && Fits(w.sessions[h], w.db.intents[ik], ik, w.clock, most, n);
      assert HeldBy(after, ik, h) && Fits(after.sessions[h], after.db.intents[ik], ik, after.clock, most, n);
    }
  }

  lemma ClaimedCovers(w: World, id: nat, lease: Time, sel: seq<IntentKey>, ik: IntentKey)
    ensures Covers(AfterClaim(w, id, lease, sel).sessions[id], ik) <==> ik in sel
  {
    var s := AfterClaim(w, id, lease, sel).sessions[id];
    if ik in sel {
      var k :| 0 <= k < |sel| && sel[k] == ik;
      assert s.claimed[k].ik == ik;
    }
  }

  lemma LeaseIsNotOver(w: World, ik: IntentKey, most: int, n: nat)
    requires Bounded(w, ik, most, n) && ik in w.db.intents
    ensures w.db.intents[ik].status == Leased ==>
      w.db.intents[ik].leasedUntil.Some? && w.db.intents[ik].leasedUntil.value >= w.clock
  {
  }

  lemma HandleBound(w: World, cfg: Config, ik: IntentKey, id: nat, handled: Handled, n: nat)
    requires ik.sub in cfg.subs && Possible(w, HandleNext(id, handled)) && (IsNext(w, id, ik) ==> handled.Raised?)
    requires AllInStep(w) && Bounded(w, ik, Most(cfg, ik), n)
    ensures Bounded(AfterHandle(w, cfg, id, handled), ik, Most(cfg, ik),
                    n + DeliveredNow(w, ik, HandleNext(id, handled)))
  {
    var most := Most(cfg, ik);
    var after := AfterHandle(w, cfg, id, handled);
    var n' := n + DeliveredNow(w, ik, HandleNext(id, handled));
    forall a | a in w.sessions ensures Covers(after.sessions[a], ik) <==> Covers(w.sessions[a], ik) {}
    if IsNext(w, id, ik) { assert Covers(w.sessions[id], ik); }
    if ik in w.db.intents && w.db.intents[ik].status == Leased {
      var h :| HeldBy(w, ik, h) && Fits(w.sessions[h], w.db.intents[ik], ik, w.clock, most, n);
      assert HeldBy(after, ik, h);
      HandledFits(w, cfg, ik, id, handled, h, n);
    }
  }

  lemma HandledFits(w: World, cfg: Config, ik: IntentKey, id: nat, handled: Handled, h: nat, n: nat)
    requires ik.sub in cfg.subs && Possible(w, HandleNext(id, handled)) && (IsNext(w, id, ik) ==> handled.Raised?)
    requires AllInStep(w) && ik in w.db.intents && HeldBy(w, ik, h)
    requires 1 <= w.db.intents[ik].attempts <= Most(cfg, ik)
    requires Fits(w.sessions[h], w.db.intents[ik], ik, w.clock, Most(cfg, ik), n)
    ensures Fits(AfterHandle(w, cfg, id, handled).sessions[h], w.db.intents[ik], ik, w.clock, Most(cfg, ik),
                 n + DeliveredNow(w, ik, HandleNext(id, handled)))
  {
    var s, after := w.sessions[h], AfterHandle(w, cfg, id, handled).sessions[h];
    var k: nat :| HoldsAt(s, ik, k) && s.claimed[k].attempts == w.db.intents[ik].attempts
      && (if k < |s.settlements| then
            Decided(s.settlements[k].outcome, w.db.intents[ik].attempts, Most(cfg, ik))
            && n == w.db.intents[ik].attempts
          else n + 1 == w.db.intents[ik].attempts);
    assert InStep(s) && HoldsAt(after, ik, k);
    if IsNext(w, id, ik) {
      assert Covers(w.sessions[id], ik) && id == h && k == |s.settlements|;
    }
  }

  lemma SettleBound(w: World, ik: IntentKey, id: nat, most: int, n: nat)
    requires Possible(w, SettleSession(id)) && AllInStep(w) && Bounded(w, ik, most, n)
    ensures Bounded(AfterSettle(w, id), ik, most, n)
  {
    var s, after := w.sessions[id], AfterSettle(w, id);
    assert InStep(s);
    if Covers(s, ik) {
      HolderSettles(w, ik, id, most, n);
    } else {
      forall i | 0 <= i < |s.settlements| ensures s.settlements[i].ik != ik { assert s.claimed[i].ik != ik; }
      SettleFrame(w.db.intents, s.settlements, ik);
      if ik in w.db.intents && w.db.intents[ik].status == Leased {
        var h :| HeldBy(w, ik, h) && Fits(w.sessions[h], w.db.intents[ik], ik, w.clock, most, n);
        assert HeldBy(after, ik, h) && Fits(after.sessions[h], after.db.intents[ik], ik, after.clock, most, n);
      }
    }
  }

  lemma HolderSettles(w: World, ik: IntentKey, id: nat, most: int, n: nat)
    requires Possible(w, SettleSession(id)) && AllInStep(w) && Bounded(w, ik, most, n) && Covers(w.sessions[id], ik)
    ensures Bounded(AfterSettle(w, id), ik, most, n)
  {
    hide SettleAll;
    var s, i := w.sessions[id], w.db.intents[ik];
    var h :| HeldBy(w, ik, h) && Fits(w.sessions[h], i, ik, w.clock, most, n);
    assert h == id && InStep(s);
    var k: nat :| HoldsAt(s, ik, k) && s.claimed[k].attempts == i.attempts
      && (if k < |s.settlements| then Decided(s.settlements[k].outcome, i.attempts, most) && n == i.attempts
          else n + 1 == i.attempts);
    forall j | 0 <= j < |s.settlements| && j != k ensures s.settlements[j].ik != s.settlements[k].ik {
      assert s.settlements[j].ik == s.claimed[j].ik;
    }
    SettleApplies(w.db.intents, s.settlements, k);
  }

  lemma RedriveBound(w: World, ik: IntentKey, sub: string, most: int, n: nat)
    requires Bounded(w, ik, most, n) && sub != ik.sub
    ensures Bounded(AfterRedrive(w, sub), ik, most, n)
  {
    QuietBound(w, AfterRedrive(w, sub), ik, most, n);
  }

  lemma CrashBound(w: World, ik: IntentKey, id: nat, most: int, n: nat)
    requires Bounded(w, ik, most, n) && id in w.sessions && !Covers(w.sessions[id], ik)
    ensures Bounded(w.(sessions := w.sessions - {id}), ik, most, n)
  {
    var after := w.(sessions := w.sessions - {id});
    if ik in w.db.intents && w.db.intents[ik].status == Leased {
      var h :| HeldBy(w, ik, h) && Fits(w.sessions[h], w.db.intents[ik], ik, w.clock, most, n);
      assert HeldBy(after, ik, h) && Fits(after.sessions[h], after.db.intents[ik], ik, after.clock, most, n);
    }
  }

  lemma StepBound(w: World, cfg: Config, ik: IntentKey, e: Event, n: nat)
    requires ValidEncodings(w.enc) && Possible(w, e) && FailsAgain(w, ik, e)
    requires ik.sub in cfg.subs && AllInStep(w) && Bounded(w, ik, Most(cfg, ik), n)
    ensures Bounded(Apply(w, cfg, e), ik, Most(cfg, ik), n + DeliveredNow(w, ik, e))
  {
    hide Bounded, ClaimSelects, RebuiltHeads, AllInStep, Covers;
    var most := Most(cfg, ik);
    match e
    case CommitBatch(reqs) => CommitBound(w, cfg, ik, reqs, most, n);
    case ClaimBatch(id, queue, limit, lease, sel) => ClaimBound(w, ik, id, queue, limit, lease, sel, most, n);
    case HandleNext(id, handled) => HandleBound(w, cfg, ik, id, handled, n);
    case SettleSession(id) => SettleBound(w, ik, id, most, n);
    case Crash(id) => CrashBound(w, ik, id, most, n);
    case Redrive(sub) => RedriveBound(w, ik, sub, most, n);
    case _ => QuietBound(w, Apply(w, cfg, e), ik, most, n);
  }

  // ------------------------------------------------------------------ whole runs

  lemma {:induction false} FailingRunIsRun(
      w0: World, cfg: Config, ik: IntentKey, events: seq<Event>, w: World, n: nat)
    requires FailingRun(w0, cfg, ik, events, w, n)
    ensures Reaches(w0, cfg, events, w)
    decreases |events|
  {
    if events != [] {
      var front, last := events[..|events| - 1], events[|events| - 1];
      var mid, m: nat :| FailingStep(mid, m, cfg, ik, last, w, n) && FailingRun(w0, cfg, ik, front, mid, m);
      hide Apply, Possible, FailsAgain;
      FailingRunIsRun(w0, cfg, ik, front, mid, m);
    }
  }

  lemma {:induction false} FailingRunIsBounded(
      enc: Encodings, clock: Time, cfg: Config, ik: IntentKey, events: seq<Event>, w: World, n: nat)
    requires ValidEncodings(enc) && ik.sub in cfg.subs && FailingRun(Start(enc, clock), cfg, ik, events, w, n)
    ensures AllInStep(w) && Bounded(w, ik, Most(cfg, ik), n) && ik !in w.returned
    decreases |events|
  {
    hide Bounded, AllInStep, Apply, Possible, FailsAgain, Start;
    if events == [] {
      StartIsBounded(enc, clock, cfg, ik);
    } else {
      var front, last := events[..|events| - 1], events[|events| - 1];
      var mid, m: nat :| FailingStep(mid, m, cfg, ik, last, w, n)
        && FailingRun(Start(enc, clock), cfg, ik, front, mid, m);
      hide FailingRun;
      FailingRunIsBounded(enc, clock, cfg, ik, front, mid, m);
      StepBound(mid, cfg, ik, last, m);
      StepKeepsOrder(mid, cfg, last);
      NeverReturns(mid, cfg, ik, last);
    }
  }

  lemma StartIsBounded(enc: Encodings, clock: Time, cfg: Config, ik: IntentKey)
    requires ik.sub in cfg.subs
    ensures var w := Start(enc, clock); AllInStep(w) && Bounded(w, ik, Most(cfg, ik), 0) && ik !in w.returned
  {
  }

  lemma NeverReturns(w: World, cfg: Config, ik: IntentKey, e: Event)
    requires ValidEncodings(w.enc) && Possible(w, e) && FailsAgain(w, ik, e) && ik !in w.returned
    ensures ik !in Apply(w, cfg, e).returned
  {
    hide Transact, Record, CreatedBy, RebuiltHeads, ClaimSelects, SettleAll, Redriven, Covers;
  }

  /** Bounded retry in every run: a created intent whose handler always fails, under
      workers that always settle in time, is still there and has been delivered and
      claimed at most max(1, max_attempts) times.  It is dead exactly when it has
      been delivered that often and no worker holds it, pending exactly when it has
      been delivered less often and no worker holds it, and otherwise leased to the
      one worker that holds it. */
  lemma EveryRunBoundsFailingIntent(
      enc: Encodings, clock: Time, cfg: Config, ik: IntentKey, events: seq<Event>, w: World, n: nat)
    requires ValidEncodings(enc) && ik.sub in cfg.subs
    requires FailingRun(Start(enc, clock), cfg, ik, events, w, n) && ik in w.created
    ensures ik in w.db.intents && ik in w.claims
    ensures var most := AtLeastOne(BackoffOf(cfg.subs[ik.sub]).maxAttempts);
      && n <= w.claims[ik] <= most
      && (w.db.intents[ik].status == Dead <==> Unheld(w, ik) && n == most)
      && (w.db.intents[ik].status == Pending <==> Unheld(w, ik) && n < most)
      && (w.db.intents[ik].status == Leased <==> exists h :: HeldBy(w, ik, h))
      && (Unheld(w, ik) ==> n == w.claims[ik])
  {
    FailingRunIsRun(Start(enc, clock), cfg, ik, events, w, n);
    FailingRunIsBounded(enc, clock, cfg, ik, events, w, n);
    EveryRunConserves(enc, clock, cfg, events, w);
    hide FailingRun, Reaches;
    assert ik in w.db.intents;
  }
}
