/** Planning: from an application's values to commit requests. */
module Planning {
  import opened Results
  import opened JsonValues
  import opened Tables
  import opened Commits
  import opened Agreement
  import opened Evolution
  import opened Worker

  /** A declared model: its current version, its upcasters, and its adapter,
      which dumps a value to its canonical tree and validates a tree to a value. */
  datatype Declaration<!T(!new)> = Declaration(
    version: int, upcasters: Upcasters, dump: T -> Doc, validate: Doc -> Result<T>) {

    /** What the constructors of streams and meta declarations check. */
    ghost predicate Valid() {
      version >= 1 && ChainOk(upcasters, 1, version)
    }

    /** The tree validates to a value with that same canonical tree. */
    predicate Stable(tree: Doc) {
      validate(tree).Ok? && dump(validate(tree).value) == tree
    }

    /** Canonicalize-validate is idempotent: what was dumped is stable. */
    ghost predicate Idempotent() {
      forall x: T :: Stable(dump(x))
    }
  }

  datatype Subscription = Subscription(id: string, stream: string, kinds: set<Kind>, delivery: Delivery)

  /** One stream of an application, with what planning needs of the rest. */
  datatype App<!T(!new), !M(!new)> = App(
    stream: string, fingerprint: string, state: Declaration<T>, meta: Declaration<M>, defaultMeta: M,
    subscriptions: seq<Subscription>) {

    /** What the declarations' constructors and the application's validator check. */
    ghost predicate Valid() {
      && stream != "" && state.Valid() && meta.Valid()
      && forall i, j :: 0 <= i < j < |subscriptions| ==> subscriptions[i].id != subscriptions[j].id
    }

    /** Upcasting from these stored versions to the declared ones ends. */
    ghost predicate Serves(schema: int, metaVersion: int) {
      Ends(state.upcasters, schema, state.version) && Ends(meta.upcasters, metaVersion, meta.version)
    }
  }

  /** The envelope of one committed state. */
  datatype Revised<!T, !M> = Revised(
    key: Key, rev: int, rid: RowKey, state: T, meta: M, at: Time, digest: Digest)

  // ---------------------------------------------------------------- intents owed

  predicate Owes(s: Subscription, stream: string, kind: Kind) {
    s.stream == stream && kind in s.kinds && s.delivery.OutboxDelivery?
  }

  function IntentFrom(s: Subscription, rid: RowKey): IntentRequest
    requires s.delivery.OutboxDelivery?
  {
    IntentRequest(s.id, rid, s.delivery.queue)
  }

  function IntentsOwed(subs: seq<Subscription>, stream: string, kind: Kind, rid: RowKey): seq<IntentRequest> {
    if subs == [] then []
    else
      var s := subs[|subs| - 1];
      IntentsOwed(subs[..|subs| - 1], stream, kind, rid) + if Owes(s, stream, kind) then [IntentFrom(s, rid)] else []
  }

  /** `intents_for` */
  method IntentsFor(
      subs: seq<Subscription>, stream: string, kind: Kind, rid: RowKey) returns (intents: seq<IntentRequest>)
    ensures intents == IntentsOwed(subs, stream, kind, rid)
  {
    intents := [];
    var i := 0;
    assert subs[..0] == [];
    while i < |subs|
      invariant 0 <= i <= |subs| && intents == IntentsOwed(subs[..i], stream, kind, rid)
    {
      assert subs[..i + 1][..i] == subs[..i];
      if Owes(subs[i], stream, kind) { intents := intents + [IntentFrom(subs[i], rid)]; }
      i := i + 1;
    }
    assert subs[..i] == subs;
  }

  /** A request is owed exactly for each matching outbox subscription, for the
      revision being written. */
  lemma {:induction false} OwedExactly(
      subs: seq<Subscription>, stream: string, kind: Kind, rid: RowKey, ir: IntentRequest)
    ensures ir in IntentsOwed(subs, stream, kind, rid) <==>
      exists i :: 0 <= i < |subs| && Owes(subs[i], stream, kind) && ir == IntentFrom(subs[i], rid)
  {
    if subs != [] {
      var n := |subs| - 1;
      OwedExactly(subs[..n], stream, kind, rid, ir);
      if i :| 0 <= i < |subs| && Owes(subs[i], stream, kind) && ir == IntentFrom(subs[i], rid) {
        if i < n { assert subs[..n][i] == subs[i]; }
      }
      if i :| 0 <= i < n && Owes(subs[..n][i], stream, kind) && ir == IntentFrom(subs[..n][i], rid) {
        assert subs[i] == subs[..n][i];
      }
    }
  }

  predicate DistinctSubscriptions(irs: seq<IntentRequest>) {
    forall i, j :: 0 <= i < j < |irs| ==> irs[i].sub != irs[j].sub
  }

  /** With distinct subscription ids no intent is owed twice. */
  lemma {:induction false} OwedOnce(subs: seq<Subscription>, stream: string, kind: Kind, rid: RowKey)
    requires forall i, j :: 0 <= i < j < |subs| ==> subs[i].id != subs[j].id
    ensures DistinctSubscriptions(IntentsOwed(subs, stream, kind, rid))
  {
    if subs != [] {
      var n := |subs| - 1;
      OwedOnce(subs[..n], stream, kind, rid);
      var irs := IntentsOwed(subs[..n], stream, kind, rid);
      forall i | 0 <= i < |irs| ensures irs[i].sub != subs[n].id {
        OwedExactly(subs[..n], stream, kind, rid, irs[i]);
      }
    }
  }

  // -------------------------------------------------------------------- planning

  function PlannedRequest<T(!new), M(!new)>(
      app: App<T, M>, key: Key, expected: Option<int>, kind: Kind, rev: int, state: T, meta: M): CommitRequest
  {
    var payload := CanonicalBytes(app.state.dump(state));
    CommitRequest(key, expected, kind, app.state.version, payload, DigestOf(payload),
                  CanonicalBytes(app.meta.dump(meta)), app.meta.version, app.fingerprint,
                  IntentsOwed(app.subscriptions, app.stream, kind, RowKey(key, rev)))
  }

  /** `plan_create` */
  function PlanCreate<T(!new), M(!new)>(app: App<T, M>, id: nat, state: T, meta: Option<M>): CommitRequest {
    PlannedRequest(app, Key(app.stream, id), None, Create, 0, state,
                   if meta.Some? then meta.value else app.defaultMeta)
  }

  /** `_plan_change`: a validated new state on top of `base`. */
  function PlanOnto<T(!new), M(!new)>(app: App<T, M>, base: Revised<T, M>, state: T, meta: Option<M>): CommitRequest {
    PlannedRequest(app, Key(app.stream, base.key.id), Some(base.rev), Change, base.rev + 1, state,
                   if meta.Some? then meta.value else base.meta)
  }

  /** What the store relies on: a planned request carries its payload's digest,
      intents for the revision it writes, and no value a table constraint rejects. */
  lemma CreatePlanIsAdmissible<T(!new), M(!new)>(app: App<T, M>, id: nat, state: T, meta: Option<M>)
    requires app.Valid()
    ensures Planned(PlanCreate(app, id, state, meta)) && RowAllowed(PlanCreate(app, id, state, meta))
  {
    var req := PlanCreate(app, id, state, meta);
    forall i | 0 <= i < |req.intents| ensures req.intents[i].rid == TargetKey(req) {
      OwedExactly(app.subscriptions, app.stream, Create, TargetKey(req), req.intents[i]);
    }
  }

  lemma ChangePlanIsAdmissible<T(!new), M(!new)>(app: App<T, M>, base: Revised<T, M>, state: T, meta: Option<M>)
    requires app.Valid()
    ensures Planned(PlanOnto(app, base, state, meta))
    ensures base.rev >= 0 <==> RowAllowed(PlanOnto(app, base, state, meta))
  {
    var req := PlanOnto(app, base, state, meta);
    forall i | 0 <= i < |req.intents| ensures req.intents[i].rid == TargetKey(req) {
      OwedExactly(app.subscriptions, app.stream, Change, TargetKey(req), req.intents[i]);
    }
  }

  /** A planned create carries exactly one request for each outbox subscription to
      creates of its stream: under the subscription's id, for revision 0, on the
      subscription's queue. */
  lemma CreatePlanOwes<T(!new), M(!new)>(app: App<T, M>, id: nat, state: T, meta: Option<M>, ir: IntentRequest)
    ensures ir in PlanCreate(app, id, state, meta).intents <==>
      exists s :: s in app.subscriptions && s.stream == app.stream && Create in s.kinds && s.delivery.OutboxDelivery?
               && ir == IntentRequest(s.id, RowKey(Key(app.stream, id), 0), s.delivery.queue)
    ensures PlanCreate(app, id, state, meta).fingerprint == app.fingerprint
  {
    var rid := RowKey(Key(app.stream, id), 0);
    OwedExactly(app.subscriptions, app.stream, Create, rid, ir);
    if s :| s in app.subscriptions && s.stream == app.stream && Create in s.kinds && s.delivery.OutboxDelivery?
            && ir == IntentRequest(s.id, rid, s.delivery.queue) {
      var i :| 0 <= i < |app.subscriptions| && app.subscriptions[i] == s;
      assert Owes(app.subscriptions[i], app.stream, Create);
    }
  }

  /** A planned change likewise, for the revision after the one it is planned on. */
  lemma ChangePlanOwes<T(!new), M(!new)>(
      app: App<T, M>, base: Revised<T, M>, state: T, meta: Option<M>, ir: IntentRequest)
    ensures ir in PlanOnto(app, base, state, meta).intents <==>
      exists s :: s in app.subscriptions && s.stream == app.stream && Change in s.kinds && s.delivery.OutboxDelivery?
               && ir == IntentRequest(s.id, RowKey(Key(app.stream, base.key.id), base.rev + 1), s.delivery.queue)
    ensures PlanOnto(app, base, state, meta).fingerprint == app.fingerprint
  {
    var rid := RowKey(Key(app.stream, base.key.id), base.rev + 1);
    OwedExactly(app.subscriptions, app.stream, Change, rid, ir);
    if s :| s in app.subscriptions && s.stream == app.stream && Change in s.kinds && s.delivery.OutboxDelivery?
            && ir == IntentRequest(s.id, rid, s.delivery.queue) {
      var i :| 0 <= i < |app.subscriptions| && app.subscriptions[i] == s;
      assert Owes(app.subscriptions[i], app.stream, Change);
    }
  }

  /** New intents of distinct subscriptions, with non-empty queues, are inserted. */
  lemma {:induction false} FreshIntentsInsert(intents: Intents, irs: seq<IntentRequest>, now: Time)
    requires forall i :: 0 <= i < |irs| ==> irs[i].queue != "" && IntentKey(irs[i].sub, irs[i].rid) !in intents
    requires DistinctSubscriptions(irs)
    ensures InsertIntents(intents, irs, now).Ok?
    ensures forall ik :: ik in InsertIntents(intents, irs, now).value ==>
      ik in intents || exists i :: 0 <= i < |irs| && ik == IntentKey(irs[i].sub, irs[i].rid)
  {
    if irs != [] {
      var n := |irs| - 1;
      FreshIntentsInsert(intents, irs[..n], now);
      forall i | 0 <= i < n ensures irs[..n][i] == irs[i] {}
    }
  }

  /** The intents a plan owes can always be inserted once, next to intents of
      other revisions. */
  lemma OwedIntentsInsert<T(!new), M(!new)>(app: App<T, M>, intents: Intents, kind: Kind, rid: RowKey, now: Time)
    requires app.Valid()
    requires forall i :: 0 <= i < |app.subscriptions| ==>
      Owes(app.subscriptions[i], app.stream, kind) ==> app.subscriptions[i].delivery.queue != ""
    requires forall ik :: ik in intents ==> ik.rid != rid
    ensures InsertIntents(intents, IntentsOwed(app.subscriptions, app.stream, kind, rid), now).Ok?
  {
    var irs := IntentsOwed(app.subscriptions, app.stream, kind, rid);
    OwedOnce(app.subscriptions, app.stream, kind, rid);
    forall i | 0 <= i < |irs| ensures irs[i].queue != "" && irs[i].rid == rid {
      OwedExactly(app.subscriptions, app.stream, kind, rid, irs[i]);
    }
    FreshIntentsInsert(intents, irs, now);
  }
}
