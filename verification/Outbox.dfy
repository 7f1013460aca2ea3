/** The delivery queue: what can be claimed, and the row effects of claiming,
    settling and redriving. */
module Outbox {
  import opened Results
  import opened Tables

  /** Claiming bumps the stored count, so a claimed intent is on its first try or later. */
  type Attempt = n: int | n >= 1 witness 1

  /** A leased intent handed to a worker, with its aggregate joined from the log. */
  datatype Claimed = Claimed(ik: IntentKey, queue: string, attempts: Attempt)

  datatype Outcome = Delivered | Retry(availableAt: Time, error: Option<string>) | DeadLetter(reason: string)

  datatype Settlement = Settlement(ik: IntentKey, outcome: Outcome)

  /** Due, or held under a lease that has run out. */
  predicate Claimable(i: Intent, queue: string, now: Time) {
    && i.queue == queue
    && match i.status
       case Pending => i.availableAt <= now
       case Leased => i.leasedUntil.Some? && i.leasedUntil.value < now
       case Dead => false
  }

  /** The rows the claim statement can return: claimable, and joined to a log row. */
  function ClaimableKeys(intents: Intents, log: Log, queue: string, now: Time): set<IntentKey> {
    set ik | ik in intents && ik.rid in log && Claimable(intents[ik], queue, now)
  }

  /** What `ORDER BY available_at LIMIT limit` may return; ties are broken freely. */
  ghost predicate ClaimSelects(sel: seq<IntentKey>, intents: Intents, log: Log, queue: string, limit: nat, now: Time) {
    var all := ClaimableKeys(intents, log, queue, now);
    && (forall i :: 0 <= i < |sel| ==> sel[i] in all)
    && (forall i, j :: 0 <= i < j < |sel| ==>
          sel[i] != sel[j] && intents[sel[i]].availableAt <= intents[sel[j]].availableAt)
    && |sel| <= limit
    && (|sel| < limit ==> forall ik :: ik in all ==> ik in sel)
    && (forall ik, i :: ik in all && ik !in sel && 0 <= i < |sel| ==>
          intents[sel[i]].availableAt <= intents[ik].availableAt)
  }

  /** `claim_mark_leased` */
  function MarkLeased(intents: Intents, sel: seq<IntentKey>, until: Time): Intents {
    map ik | ik in intents ::
      if ik in sel
      then intents[ik].(status := Leased, leasedUntil := Some(until), attempts := intents[ik].attempts + 1)
      else intents[ik]
  }

  function ClaimedFrom(intents: Intents, ik: IntentKey): Claimed
    requires ik in intents
  {
    Claimed(ik, intents[ik].queue, intents[ik].attempts + 1)
  }

  /** One settlement statement, matched on the intent alone. */
  function SettleOne(intents: Intents, s: Settlement): Intents {
    if s.ik !in intents then intents
    else
      match s.outcome
      case Delivered => intents - {s.ik}
      case Retry(at, error) =>
        intents[s.ik := intents[s.ik].(status := Pending, leasedUntil := None, availableAt := at, lastError := error)]
      case DeadLetter(reason) =>
        intents[s.ik := intents[s.ik].(status := Dead, leasedUntil := None, lastError := Some(reason))]
  }

  /** `settle_intents`: one statement per settlement, in order. */
  function SettleAll(intents: Intents, ss: seq<Settlement>): Intents {
    if ss == [] then intents else SettleOne(SettleAll(intents, ss[..|ss| - 1]), ss[|ss| - 1])
  }

  predicate Redrivable(ik: IntentKey, i: Intent, sub: string) {
    ik.sub == sub && i.status == Dead
  }

  /** `redrive` */
  function Redriven(intents: Intents, sub: string, now: Time): Intents {
    map ik | ik in intents ::
      if Redrivable(ik, intents[ik], sub)
      then intents[ik].(status := Pending, attempts := 0, availableAt := now, leasedUntil := None, lastError := None)
      else intents[ik]
  }

  /** The claim SELECT: repeatedly take an earliest claimable row, up to `limit`. */
  method SelectClaim(intents: Intents, log: Log, queue: string, limit: nat, now: Time) returns (sel: seq<IntentKey>)
    ensures ClaimSelects(sel, intents, log, queue, limit, now)
  {
    var rest := ClaimableKeys(intents, log, queue, now);
    ghost var all := rest;
    sel := [];
    while rest != {} && |sel| < limit
      invariant |sel| <= limit
      invariant forall i :: 0 <= i < |sel| ==> sel[i] in all && sel[i] !in rest
      invariant forall ik :: ik in all <==> ik in rest || ik in sel
      invariant forall i, j :: 0 <= i < j < |sel| ==>
        sel[i] != sel[j] && intents[sel[i]].availableAt <= intents[sel[j]].availableAt
      invariant forall ik, i :: ik in rest && 0 <= i < |sel| ==>
        intents[sel[i]].availableAt <= intents[ik].availableAt
      decreases rest
    {
      var first := Earliest(intents, rest);
      sel := sel + [first];
      rest := rest - {first};
    }
  }

  method Earliest(intents: Intents, s: set<IntentKey>) returns (first: IntentKey)
    requires s != {} && forall ik :: ik in s ==> ik in intents
    ensures first in s && forall ik :: ik in s ==> intents[first].availableAt <= intents[ik].availableAt
  {
    first :| first in s;
    var rest := s - {first};
    while rest != {}
      invariant rest <= s && first in s && first !in rest
      invariant forall ik :: ik in s && ik !in rest ==> intents[first].availableAt <= intents[ik].availableAt
      decreases rest
    {
      var ik :| ik in rest;
      rest := rest - {ik};
      if intents[ik].availableAt < intents[first].availableAt { first := ik; }
    }
  }

  lemma SelectedOnce(sel: seq<IntentKey>, intents: Intents, log: Log, queue: string, limit: nat, now: Time, k: int)
    requires ClaimSelects(sel, intents, log, queue, limit, now) && 0 <= k < |sel|
    ensures sel[k] in intents && sel[k].rid in log && Claimable(intents[sel[k]], queue, now)
    ensures forall i :: 0 <= i < |sel| && i != k ==> sel[i] != sel[k]
  {
  }

  /** Ready for a worker: on its queue, joined to its row, and either pending and
      due, or leased with the lease run out. */
  ghost predicate Ready(intents: Intents, log: Log, queue: string, now: Time, ik: IntentKey) {
    && ik in intents && ik.rid in log && intents[ik].queue == queue
    && ((intents[ik].status == Pending && intents[ik].availableAt <= now)
        || (intents[ik].status == Leased && intents[ik].leasedUntil.Some? && intents[ik].leasedUntil.value < now))
  }

  /** A claim takes only what is ready, in the order it became available, up to its
      limit; what it leaves although ready was available no earlier than anything it
      took, and it leaves nothing ready while it has room. */
  lemma ClaimTakesWhatIsReady(
      sel: seq<IntentKey>, intents: Intents, log: Log, queue: string, limit: nat, now: Time)
    requires ClaimSelects(sel, intents, log, queue, limit, now)
    ensures |sel| <= limit
    ensures forall i :: 0 <= i < |sel| ==> Ready(intents, log, queue, now, sel[i])
    ensures forall i, j :: 0 <= i < j < |sel| ==>
      sel[i] in intents && sel[j] in intents
      && sel[i] != sel[j] && intents[sel[i]].availableAt <= intents[sel[j]].availableAt
    ensures forall ik :: Ready(intents, log, queue, now, ik) && ik !in sel ==>
      |sel| == limit
      && forall i :: 0 <= i < |sel| ==> sel[i] in intents && intents[sel[i]].availableAt <= intents[ik].availableAt
    ensures forall i, until :: 0 <= i < |sel| ==>
      sel[i] in intents && sel[i] in MarkLeased(intents, sel, until)
      && MarkLeased(intents, sel, until)[sel[i]]
         == intents[sel[i]].(status := Leased, leasedUntil := Some(until), attempts := intents[sel[i]].attempts + 1)
    ensures forall ik, until :: ik in intents && ik !in sel ==>
      ik in MarkLeased(intents, sel, until) && MarkLeased(intents, sel, until)[ik] == intents[ik]
  {
    forall ik ensures Ready(intents, log, queue, now, ik) <==> ik in ClaimableKeys(intents, log, queue, now) {}
  }

  /** A redrive makes each dead intent of the subscription as good as new, and so
      ready at once where its row is, and touches no other. */
  lemma RedriveRevives(intents: Intents, log: Log, sub: string, now: Time, ik: IntentKey)
    requires ik in intents
    ensures var after := Redriven(intents, sub, now);
      && ik in after
      && (ik.sub == sub && intents[ik].status == Dead ==>
            && after[ik] == Intent(intents[ik].queue, Pending, 0, now, None, None, intents[ik].createdAt)
            && (ik.rid in log ==> Ready(after, log, intents[ik].queue, now, ik)))
      && (ik.sub != sub || intents[ik].status != Dead ==> after[ik] == intents[ik])
  {
  }

  /** Settling touches only the intents it names. */
  lemma {:induction false} SettleFrame(intents: Intents, ss: seq<Settlement>, ik: IntentKey)
    requires forall i :: 0 <= i < |ss| ==> ss[i].ik != ik
    ensures ik in SettleAll(intents, ss) <==> ik in intents
    ensures ik in intents ==> SettleAll(intents, ss)[ik] == intents[ik]
  {
    if ss != [] { SettleFrame(intents, ss[..|ss| - 1], ik); }
  }

  /** Settling removes exactly the present intents it reports delivered (each
      named at most once), and creates none. */
  lemma {:induction false} SettleRemoves(intents: Intents, ss: seq<Settlement>, ik: IntentKey)
    ensures ik in SettleAll(intents, ss) <==>
      ik in intents && !exists i :: 0 <= i < |ss| && ss[i] == Settlement(ik, Delivered)
  {
    if ss != [] {
      var front, last := ss[..|ss| - 1], ss[|ss| - 1];
      SettleRemoves(intents, front, ik);
      if exists i :: 0 <= i < |ss| && ss[i] == Settlement(ik, Delivered) {
        var i :| 0 <= i < |ss| && ss[i] == Settlement(ik, Delivered);
        if i < |front| { assert front[i] == Settlement(ik, Delivered); }
      } else {
        assert forall i :: 0 <= i < |front| ==> front[i] == ss[i];
      }
    }
  }
}
