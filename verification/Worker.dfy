/** The outbox worker: claim, deliver outside any transaction, settle; and the
    bound on deliveries of an intent whose handler always fails. */
module Worker {
  import opened Results
  import opened Tables
  import opened Outbox
  import Retry
  import opened Store

  /** How a subscription is delivered; only outbox subscriptions carry a retry policy. */
  datatype Delivery = Inline | OutboxDelivery(queue: string, retry: Retry.Backoff)

  type Subscriptions = map<string, Delivery>

  const DEFAULT_BACKOFF := Retry.Backoff(12, 1.0, 2.0, 3600.0)

  function BackoffOf(d: Delivery): Retry.Backoff {
    if d.OutboxDelivery? then d.retry else DEFAULT_BACKOFF
  }

  /** What rebuilding the commit and running the handler on it did. */
  datatype Handled = Returned | Raised(reason: string)

  /** `_deliver`: the settlement of one claimed intent. */
  function SettlementFor(subs: Subscriptions, c: Claimed, handled: Handled, now: Time): Settlement {
    if c.ik.sub !in subs then Settlement(c.ik, DeadLetter("unknown subscription " + c.ik.sub))
    else
      match handled
      case Returned => Settlement(c.ik, Delivered)
      case Raised(reason) =>
        match Retry.Decide(c.attempts, BackoffOf(subs[c.ik.sub]), now)
        case Die => Settlement(c.ik, DeadLetter(reason))
        case RetryAt(at) => Settlement(c.ik, Outcome.Retry(at, None))
  }

  /** The handler's and the clock's answer for each delivery of one drain. */
  datatype Oracle = Oracle(handle: Claimed -> Handled, clock: Claimed -> Time)

  function Settlements(subs: Subscriptions, o: Oracle, claimed: seq<Claimed>): seq<Settlement> {
    if claimed == [] then []
    else
      var c := claimed[|claimed| - 1];
      Settlements(subs, o, claimed[..|claimed| - 1]) + [SettlementFor(subs, c, o.handle(c), o.clock(c))]
  }

  predicate IsDelivered(s: Settlement) { s.outcome.Delivered? }
  predicate IsRetried(s: Settlement) { s.outcome.Retry? }
  predicate IsDead(s: Settlement) { s.outcome.DeadLetter? }

  function Count(ss: seq<Settlement>, p: Settlement -> bool): nat {
    if ss == [] then 0 else Count(ss[..|ss| - 1], p) + if p(ss[|ss| - 1]) then 1 else 0
  }

  function Where(ss: seq<Settlement>, p: Settlement -> bool): set<int> {
    set i | 0 <= i < |ss| && p(ss[i])
  }

  lemma {:induction false} CountIsCardinality(ss: seq<Settlement>, p: Settlement -> bool)
    ensures Count(ss, p) == |Where(ss, p)|
  {
    if ss == [] {
      assert forall i :: i !in Where(ss, p);
    } else {
      var n := |ss| - 1;
      CountIsCardinality(ss[..n], p);
      assert Where(ss, p) == Where(ss[..n], p) + if p(ss[n]) then {n} else {};
    }
  }

  /** The three counters count the three outcomes. */
  lemma Counts(ss: seq<Settlement>)
    ensures Count(ss, IsDelivered) == |set i | 0 <= i < |ss| && ss[i].outcome.Delivered?|
    ensures Count(ss, IsRetried) == |set i | 0 <= i < |ss| && ss[i].outcome.Retry?|
    ensures Count(ss, IsDead) == |set i | 0 <= i < |ss| && ss[i].outcome.DeadLetter?|
  {
    CountIsCardinality(ss, IsDelivered);
    CountIsCardinality(ss, IsRetried);
    CountIsCardinality(ss, IsDead);
    assert Where(ss, IsDelivered) == set i | 0 <= i < |ss| && ss[i].outcome.Delivered?;
    assert Where(ss, IsRetried) == set i | 0 <= i < |ss| && ss[i].outcome.Retry?;
    assert Where(ss, IsDead) == set i | 0 <= i < |ss| && ss[i].outcome.DeadLetter?;
  }

  datatype WorkerReport = WorkerReport(claimed: nat, delivered: nat, retried: nat, deadLettered: nat)

  /** The settlements list and report counters that a drain fills in. */
  class DrainState {
    var settlements: seq<Settlement>
    var delivered: nat
    var retried: nat
    var deadLettered: nat

    constructor ()
      ensures settlements == [] && Tallied()
    {
      settlements := [];
      delivered, retried, deadLettered := 0, 0, 0;
    }

    ghost predicate Tallied()
      reads this
    {
      && delivered == Count(settlements, IsDelivered)
      && retried == Count(settlements, IsRetried)
      && deadLettered == Count(settlements, IsDead)
      && delivered + retried + deadLettered == |settlements|
    }

    /** `_deliver` with `_retry_or_dead` and `_dead_letter`: append one
        settlement and count it. */
    method Deliver(subs: Subscriptions, c: Claimed, handled: Handled, now: Time)
      requires Tallied()
      modifies this
      ensures Tallied()
      ensures settlements == old(settlements) + [SettlementFor(subs, c, handled, now)]
    {
      var s := SettlementFor(subs, c, handled, now);
      ghost var before := settlements;
      settlements := settlements + [s];
      assert settlements[..|settlements| - 1] == before;
      match s.outcome {
        case Delivered => delivered := delivered + 1;
        case Retry(_, _) => retried := retried + 1;
        case DeadLetter(_) => deadLettered := deadLettered + 1;
      }
    }
  }

  class OutboxWorker {
    const store: SqlStore
    const subs: Subscriptions
    const queue: string
    const lease: Time
    const batchSize: int

    constructor (store: SqlStore, subs: Subscriptions, queue: string, lease: Time, batchSize: int)
      ensures this.store == store && this.subs == subs && this.queue == queue
      ensures this.lease == lease && this.batchSize == batchSize
    {
      this.store, this.subs, this.queue, this.lease, this.batchSize := store, subs, queue, lease, batchSize;
    }

    /** `drain_once`: one claim, one settlement per claimed intent in claim order,
        one settle; the report adds up. */
    method DrainOnce(o: Oracle, now: Time) returns (r: Result<WorkerReport>, ghost sel: seq<IntentKey>)
      modifies store`intents
      ensures batchSize < 1 ==> r == Err(UsageError) && store.intents == old(store.intents)
      ensures batchSize >= 1 ==>
        && ClaimSelects(sel, old(store.intents), store.log, queue, batchSize, now)
        && store.intents == Drained(old(store.intents), subs, Drain(sel, queue, batchSize, lease, now, o))
        && r.Ok?
        && r.value.claimed == |sel|
        && r.value.claimed == r.value.delivered + r.value.retried + r.value.deadLettered
        && var ss := Settlements(subs, o, ClaimedAll(old(store.intents), sel));
           && r.value.delivered == |set i | 0 <= i < |ss| && ss[i].outcome.Delivered?|
           && r.value.retried == |set i | 0 <= i < |ss| && ss[i].outcome.Retry?|
           && r.value.deadLettered == |set i | 0 <= i < |ss| && ss[i].outcome.DeadLetter?|
    {
      hide ClaimSelects, Count, Settlements, MarkLeased, SettleAll, ClaimedFrom;
      var claim: Result<seq<Claimed>>;
      claim, sel := store.Claim(queue, batchSize, lease, now);
      if claim.Err? { return Err(claim.error), sel; }
      var claimed := claim.value;
      ClaimedAllIs(old(store.intents), sel, claimed);
      SettlementsLength(subs, o, claimed);
      NothingToSettle(old(store.intents), now + lease, subs, o);
      Counts(Settlements(subs, o, claimed));
      if claimed == [] {
        assert sel == [];
        return Ok(WorkerReport(0, 0, 0, 0)), sel;
      }
      var state := new DrainState();
      var i := 0;
      assert claimed[..0] == [];
      while i < |claimed|
        invariant 0 <= i <= |claimed|
        invariant state.Tallied()
        invariant state.settlements == Settlements(subs, o, claimed[..i])
        modifies state
      {
        SettlementsNext(subs, o, claimed, i);
        state.Deliver(subs, claimed[i], o.handle(claimed[i]), o.clock(claimed[i]));
        i := i + 1;
      }
      assert claimed[..i] == claimed;
      store.Settle(state.settlements);
      return Ok(WorkerReport(|claimed|, state.delivered, state.retried, state.deadLettered)), sel;
    }
  }

  /** One drain: which intents the claim returned, and when and how they were handled. */
  datatype Drain = Drain(sel: seq<IntentKey>, queue: string, limit: nat, lease: Time, now: Time, oracle: Oracle)

  function ClaimedAll(intents: Intents, sel: seq<IntentKey>): seq<Claimed> {
    seq(|sel|, i requires 0 <= i < |sel| =>
      if sel[i] in intents then ClaimedFrom(intents, sel[i]) else Claimed(sel[i], "", 1))
  }

  lemma ClaimedAllIs(intents: Intents, sel: seq<IntentKey>, claimed: seq<Claimed>)
    requires |claimed| == |sel|
    requires forall i :: 0 <= i < |sel| ==> sel[i] in intents && claimed[i] == ClaimedFrom(intents, sel[i])
    ensures claimed == ClaimedAll(intents, sel)
  {
  }

  lemma NothingToSettle(intents: Intents, until: Time, subs: Subscriptions, o: Oracle)
    ensures MarkLeased(intents, [], until) == intents
    ensures SettleAll(intents, Settlements(subs, o, [])) == intents
    ensures Settlements(subs, o, []) == []
    ensures Count([], IsDelivered) == Count([], IsRetried) == Count([], IsDead) == 0
  {
  }

  lemma SettlementsNext(subs: Subscriptions, o: Oracle, claimed: seq<Claimed>, i: nat)
    requires i < |claimed|
    ensures Settlements(subs, o, claimed[..i + 1])
      == Settlements(subs, o, claimed[..i])
         + [SettlementFor(subs, claimed[i], o.handle(claimed[i]), o.clock(claimed[i]))]
  {
    assert claimed[..i + 1][..i] == claimed[..i];
  }

  lemma {:induction false} SettlementsLength(subs: Subscriptions, o: Oracle, claimed: seq<Claimed>)
    ensures |Settlements(subs, o, claimed)| == |claimed|
    ensures forall i :: 0 <= i < |claimed| ==>
      Settlements(subs, o, claimed)[i] == SettlementFor(subs, claimed[i], o.handle(claimed[i]), o.clock(claimed[i]))
  {
    if claimed != [] { SettlementsLength(subs, o, claimed[..|claimed| - 1]); }
  }

  /** The intents after a drain. */
  function Drained(intents: Intents, subs: Subscriptions, d: Drain): Intents {
    SettleAll(MarkLeased(intents, d.sel, d.now + d.lease), Settlements(subs, d.oracle, ClaimedAll(intents, d.sel)))
  }

  // ------------------------------------------------------------ bounded retry

  function AfterDrains(intents: Intents, subs: Subscriptions, drains: seq<Drain>): Intents {
    if drains == [] then intents
    else Drained(AfterDrains(intents, subs, drains[..|drains| - 1]), subs, drains[|drains| - 1])
  }

  /** Each drain claims by the claim rule from the intents its predecessors left. */
  ghost predicate ValidDrains(intents: Intents, log: Log, subs: Subscriptions, drains: seq<Drain>) {
    drains != [] ==>
      && ValidDrains(intents, log, subs, drains[..|drains| - 1])
      && var d := drains[|drains| - 1];
      && d.limit >= 1
      && ClaimSelects(d.sel, AfterDrains(intents, subs, drains[..|drains| - 1]), log, d.queue, d.limit, d.now)
  }

  predicate AlwaysFails(drains: seq<Drain>, ik: IntentKey, attempts: nat) {
    forall i, q :: 0 <= i < |drains| && 1 <= q <= attempts ==>
      drains[i].oracle.handle(Claimed(ik, drains[i].queue, q)).Raised?
  }

  /** How often the intent was handed to a handler. */
  function Deliveries(drains: seq<Drain>, ik: IntentKey): nat {
    if drains == [] then 0
    else Deliveries(drains[..|drains| - 1], ik) + if ik in drains[|drains| - 1].sel then 1 else 0
  }

  function AtLeastOne(n: int): nat {
    if n < 1 then 1 else n
  }

  /** A drain applies to a claimed intent its own settlement and no other, and
      does not touch the rest. */
  lemma DrainSettles(intents: Intents, log: Log, subs: Subscriptions, d: Drain, ik: IntentKey)
    requires ClaimSelects(d.sel, intents, log, d.queue, d.limit, d.now) && ik in intents
    ensures ik !in d.sel ==> ik in Drained(intents, subs, d) && Drained(intents, subs, d)[ik] == intents[ik]
    ensures ik in d.sel ==>
      var c := Claimed(ik, d.queue, intents[ik].attempts + 1);
      var settled := SettleOne(MarkLeased(intents, d.sel, d.now + d.lease),
                               SettlementFor(subs, c, d.oracle.handle(c), d.oracle.clock(c)));
      && intents[ik].queue == d.queue
      && (ik in Drained(intents, subs, d) <==> ik in settled)
      && (ik in settled ==> Drained(intents, subs, d)[ik] == settled[ik])
  {
    hide ClaimSelects, Settlements, SettleAll, Retry.Decide, SettleOne;
    var claimed := ClaimedAll(intents, d.sel);
    var leased := MarkLeased(intents, d.sel, d.now + d.lease);
    var ss := Settlements(subs, d.oracle, claimed);
    SettlementsLength(subs, d.oracle, claimed);
    if ik !in d.sel {
      forall i | 0 <= i < |ss| ensures ss[i].ik != ik { assert ss[i].ik == claimed[i].ik == d.sel[i]; }
      SettleFrame(leased, ss, ik);
    } else {
      var k :| 0 <= k < |d.sel| && d.sel[k] == ik;
      SelectedOnce(d.sel, intents, log, d.queue, d.limit, d.now, k);
      forall i | 0 <= i < |ss| && i != k ensures ss[i].ik != ik { assert ss[i].ik == claimed[i].ik == d.sel[i]; }
      assert ss[k] == SettlementFor(subs, claimed[k], d.oracle.handle(claimed[k]), d.oracle.clock(claimed[k]));
      SettleApplies(leased, ss, k);
    }
  }

  /** The failing intent after one drain: claimed, it uses up one attempt and is
      rescheduled by its backoff, or dies at its last attempt with the handler's
      error on record; nothing else of it changes.  Unclaimed, it is as before. */
  lemma DrainStep(intents: Intents, log: Log, subs: Subscriptions, d: Drain, ik: IntentKey)
    requires ClaimSelects(d.sel, intents, log, d.queue, d.limit, d.now)
    requires ik in intents && ik.sub in subs
    requires ik in d.sel ==> d.oracle.handle(Claimed(ik, d.queue, intents[ik].attempts + 1)).Raised?
    ensures ik in Drained(intents, subs, d)
    ensures var after := Drained(intents, subs, d)[ik];
      var c := Claimed(ik, d.queue, intents[ik].attempts + 1);
      if ik !in d.sel then after == intents[ik]
      else
        && intents[ik].queue == d.queue
        && var tried := intents[ik].(attempts := intents[ik].attempts + 1, leasedUntil := None);
        && match Retry.Decide(tried.attempts, BackoffOf(subs[ik.sub]), d.oracle.clock(c))
           case Die => after == tried.(status := Dead, lastError := Some(d.oracle.handle(c).reason))
           case RetryAt(at) => after == tried.(status := Pending, availableAt := at, lastError := None)
  {
    hide ClaimSelects, Drained, Retry.Decide;
    DrainSettles(intents, log, subs, d, ik);
  }

  /** What a drain does to an intent: it is gone exactly when it was claimed under
      a known subscription and its handler returned; claimed under an unknown one
      it is dead; not claimed it is untouched. */
  lemma DrainOutcomes(intents: Intents, log: Log, subs: Subscriptions, d: Drain, ik: IntentKey)
    requires ClaimSelects(d.sel, intents, log, d.queue, d.limit, d.now) && ik in intents
    ensures var handled := d.oracle.handle(Claimed(ik, d.queue, intents[ik].attempts + 1));
      var after := Drained(intents, subs, d);
      && (ik !in after <==> ik in d.sel && ik.sub in subs && handled.Returned?)
      && (ik in d.sel && ik.sub !in subs ==>
            ik in after
            && after[ik] == intents[ik].(status := Dead, attempts := intents[ik].attempts + 1, leasedUntil := None,
                                         lastError := Some("unknown subscription " + ik.sub)))
      && (ik !in d.sel ==> ik in after && after[ik] == intents[ik])
  {
    hide ClaimSelects, Drained, Retry.Decide;
    DrainSettles(intents, log, subs, d, ik);
  }

  /** A settlement list that names an intent once applies that settlement to it. */
  lemma {:induction false} SettleApplies(intents: Intents, ss: seq<Settlement>, k: int)
    requires 0 <= k < |ss| && ss[k].ik in intents
    requires forall i :: 0 <= i < |ss| && i != k ==> ss[i].ik != ss[k].ik
    ensures var ik := ss[k].ik;
      && (ik in SettleAll(intents, ss) <==> ik in SettleOne(intents, ss[k]))
      && (ik in SettleAll(intents, ss) ==> SettleAll(intents, ss)[ik] == SettleOne(intents, ss[k])[ik])
    decreases |ss|
  {
    var front, last := ss[..|ss| - 1], ss[|ss| - 1];
    if k == |ss| - 1 {
      SettleFrame(intents, front, last.ik);
    } else {
      SettleApplies(intents, front, k);
    }
  }

  /** An intent whose handler always fails, drained by workers that always
      settle, is never delivered more than max(1, max_attempts) times; it is dead
      exactly when it has been delivered that often, and pending until then. */
  lemma {:induction false} FailingIntentIsBounded(
      intents: Intents, log: Log, subs: Subscriptions, drains: seq<Drain>, ik: IntentKey)
    requires ValidDrains(intents, log, subs, drains)
    requires ik in intents && intents[ik].status == Pending && intents[ik].attempts == 0
    requires ik.sub in subs
    requires AlwaysFails(drains, ik, AtLeastOne(BackoffOf(subs[ik.sub]).maxAttempts))
    ensures ik in AfterDrains(intents, subs, drains)
    ensures var after := AfterDrains(intents, subs, drains)[ik];
      var n := Deliveries(drains, ik);
      var most := AtLeastOne(BackoffOf(subs[ik.sub]).maxAttempts);
      && after.attempts == n <= most
      && after.status == (if n == most then Dead else Pending)
    decreases |drains|
  {
    hide ClaimSelects, Drained;
    if drains != [] {
      var front, d := drains[..|drains| - 1], drains[|drains| - 1];
      assert forall i :: 0 <= i < |front| ==> front[i] == drains[i];
      FailingIntentIsBounded(intents, log, subs, front, ik);
      var before := AfterDrains(intents, subs, front);
      if ik in d.sel { SelectedIsClaimable(d.sel, before, log, d.queue, d.limit, d.now, ik); }
      DrainStep(before, log, subs, d, ik);
    }
  }

  /** The same bound with the limits spelled out: a retry policy's own `maxAttempts`,
      and twelve tries, doubling from one second up to an hour, without one. */
  lemma FailingIntentLimit(
      intents: Intents, log: Log, subs: Subscriptions, drains: seq<Drain>, ik: IntentKey, most: int)
    requires ValidDrains(intents, log, subs, drains)
    requires ik in intents && intents[ik].status == Pending && intents[ik].attempts == 0 && ik.sub in subs
    requires match subs[ik.sub]
      case Inline => most == 12
      case OutboxDelivery(_, retry) => most == if retry.maxAttempts < 1 then 1 else retry.maxAttempts
    requires AlwaysFails(drains, ik, most)
    ensures ik in AfterDrains(intents, subs, drains)
    ensures Deliveries(drains, ik) <= most
    ensures AfterDrains(intents, subs, drains)[ik].status == if Deliveries(drains, ik) == most then Dead else Pending
    ensures subs[ik.sub].Inline? ==> forall n, now :: 1 <= n < 12 ==>
      Retry.Decide(n, BackoffOf(subs[ik.sub]), now)
      == Retry.RetryAt(now + Retry.Min(Retry.Power(2.0, n - 1), 3600.0))
  {
    FailingIntentIsBounded(intents, log, subs, drains, ik);
  }

  lemma SelectedIsClaimable(
      sel: seq<IntentKey>, intents: Intents, log: Log, queue: string, limit: nat, now: Time, ik: IntentKey)
    requires ClaimSelects(sel, intents, log, queue, limit, now) && ik in sel
    ensures ik in intents && ik.rid in log && Claimable(intents[ik], queue, now)
  {
  }

  /** The intent is pending just before the k-th drain. */
  predicate PendingAt(intents: Intents, subs: Subscriptions, drains: seq<Drain>, ik: IntentKey, k: nat)
    requires k < |drains|
  {
    var before := AfterDrains(intents, subs, drains[..k]);
    ik in before && before[ik].status == Pending
  }

  /** If each drain claims the intent while it is pending, k drains deliver it
      min(k, max(1, max_attempts)) times. */
  lemma {:induction false} FailingIntentDies(
      intents: Intents, log: Log, subs: Subscriptions, drains: seq<Drain>, ik: IntentKey)
    requires ValidDrains(intents, log, subs, drains)
    requires ik in intents && intents[ik].status == Pending && intents[ik].attempts == 0
    requires ik.sub in subs
    requires AlwaysFails(drains, ik, AtLeastOne(BackoffOf(subs[ik.sub]).maxAttempts))
    requires forall k :: 0 <= k < |drains| ==> PendingAt(intents, subs, drains, ik, k) ==> ik in drains[k].sel
    ensures var most := AtLeastOne(BackoffOf(subs[ik.sub]).maxAttempts);
      Deliveries(drains, ik) == if |drains| <= most then |drains| else most
    decreases |drains|
  {
    hide ClaimSelects, Drained;
    if drains != [] {
      var n := |drains| - 1;
      var front, d := drains[..n], drains[n];
      assert forall i :: 0 <= i < |front| ==> front[i] == drains[i];
      forall k | 0 <= k < n ensures PendingAt(intents, subs, front, ik, k) ==> ik in front[k].sel {
        assert front[..k] == drains[..k];
        assert PendingAt(intents, subs, drains, ik, k) <==> PendingAt(intents, subs, front, ik, k);
      }
      assert PendingAt(intents, subs, drains, ik, n) ==> ik in d.sel;
      FailingIntentDies(intents, log, subs, front, ik);
      FailingIntentIsBounded(intents, log, subs, front, ik);
      if ik in d.sel {
        SelectedIsClaimable(d.sel, AfterDrains(intents, subs, front), log, d.queue, d.limit, d.now, ik);
      }
    }
  }

  /** No claim returns a pending intent before its `available_at`. */
  lemma NotClaimedEarly(
      sel: seq<IntentKey>, intents: Intents, log: Log, queue: string, limit: nat, now: Time, ik: IntentKey)
    requires ClaimSelects(sel, intents, log, queue, limit, now)
    requires ik in intents && intents[ik].status == Pending && now < intents[ik].availableAt
    ensures ik !in sel
  {
  }
}
