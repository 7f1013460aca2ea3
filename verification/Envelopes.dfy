/** Change envelopes: dispatched inline from the request just committed, or rebuilt
    by a worker from the log. */
module Envelopes {
  import opened Results
  import opened JsonValues
  import opened DeltaEncoding
  import opened Tables
  import opened LogReads
  import opened Commits
  import opened Evolution
  import opened Planning
  import opened Store

  /** The envelope handed to handlers. */
  datatype Notice<!T, !M> = Notice(kind: Kind, revision: Revised<T, M>, changed: set<string>)

  /** Declarations valid as constructed serve every version that can be stored. */
  lemma ValidServes<T(!new), M(!new)>(app: App<T, M>, schema: int, metaVersion: int)
    requires app.Valid() && schema >= 1 && metaVersion >= 1
    ensures app.Serves(schema, metaVersion)
  {
    ChainEnds(app.state.upcasters, schema, app.state.version);
    ChainEnds(app.meta.upcasters, metaVersion, app.meta.version);
  }

  lemma DeclaredServes<T(!new), M(!new)>(app: App<T, M>)
    ensures app.Serves(app.state.version, app.meta.version)
  {
    assert EndsWithin(app.state.upcasters, app.state.version, app.state.version, 0);
    assert EndsWithin(app.meta.upcasters, app.meta.version, app.meta.version, 0);
  }

  /** `hydrate`: upcast state and meta to the declared versions, validate both. */
  function Hydrate<T(!new), M(!new)>(app: App<T, M>, s: StoredRevision): Result<Revised<T, M>>
    requires app.Serves(s.schema, s.metaVersion)
  {
    var tree :- UpcastTree(s.payload, s.schema, app.state.version, app.state.upcasters);
    var state :- app.state.validate(tree);
    var metaTree :- UpcastTree(s.meta, s.metaVersion, app.meta.version, app.meta.upcasters);
    var meta :- app.meta.validate(metaTree);
    Ok(Revised(s.key, s.rev, s.rid, state, meta, s.at, s.digest))
  }

  /** Under a validated application a stored revision of any versions hydrates exactly
      when neither version is newer than declared, its payload taken through the
      state's steps validates as a state, and its metadata taken through their own
      steps validates as metadata.  It then carries those two values and the
      revision's own place, time and digest. */
  lemma HydrateAppliesSteps<T(!new), M(!new)>(app: App<T, M>, s: StoredRevision)
    requires app.Valid() && s.schema >= 1 && s.metaVersion >= 1
    ensures app.Serves(s.schema, s.metaVersion)
    ensures var state := app.state.validate(Steps(app.state.upcasters, s.schema, app.state.version, s.payload));
      var meta := app.meta.validate(Steps(app.meta.upcasters, s.metaVersion, app.meta.version, s.meta));
      var r := Hydrate(app, s);
      && (r.Ok? <==> s.schema <= app.state.version && s.metaVersion <= app.meta.version && state.Ok? && meta.Ok?)
      && (r.Ok? ==> r.value == Revised(s.key, s.rev, s.rid, state.value, meta.value, s.at, s.digest))
      && (s.schema > app.state.version ==> r == Err(UndecodableRevision))
      && (s.schema <= app.state.version && state.Err? ==> r == Err(state.error))
      && (s.schema <= app.state.version && state.Ok? && s.metaVersion > app.meta.version ==>
            r == Err(UndecodableRevision))
      && (s.schema <= app.state.version && state.Ok? && s.metaVersion <= app.meta.version && meta.Err? ==>
            r == Err(meta.error))
  {
    ValidServes(app, s.schema, s.metaVersion);
    if s.schema <= app.state.version {
      UpcastTreeAppliesSteps(s.payload, s.schema, app.state.version, app.state.upcasters);
    }
    if s.metaVersion <= app.meta.version {
      UpcastTreeAppliesSteps(s.meta, s.metaVersion, app.meta.version, app.meta.upcasters);
    }
  }

  // --------------------------------------------------------------------- inline

  /** `_materialize`'s stored revision, made from the request without a read. */
  function StoredFromRequest(req: CommitRequest, result: CommitResult): StoredRevision {
    StoredRevision(req.key, result.rev, RowKey(req.key, result.rev), req.kind, req.schema, req.metaVersion,
                   Loads(req.payload), req.digest, Loads(req.meta), result.at)
  }

  /** `_changed`: all keys on create, else against the base state's canonical tree. */
  function InlineChanged<T(!new), M(!new)>(app: App<T, M>, req: CommitRequest, before: Option<T>): set<string> {
    match before
    case None => Loads(req.payload).Keys
    case Some(b) => ChangedKeys(app.state.dump(b), Loads(req.payload))
  }

  function InlineNotice<T(!new), M(!new)>(
      app: App<T, M>, req: CommitRequest, result: CommitResult, before: Option<T>): Result<Notice<T, M>>
    requires app.Serves(req.schema, req.metaVersion)
  {
    var revision :- Hydrate(app, StoredFromRequest(req, result));
    Ok(Notice(req.kind, revision, InlineChanged(app, req, before)))
  }

  // -------------------------------------------------------------------- durable

  ghost predicate ServedAt<T(!new), M(!new)>(app: App<T, M>, log: Log, rk: RowKey) {
    rk in log ==> app.Serves(log[rk].schema, log[rk].metaVersion)
  }

  /** `_changed_for`: against the previous revision as the log has it now. */
  function DurableChanged(log: Log, enc: Encodings, key: Key, rev: int, after: Doc): Result<set<string>>
    requires ValidEncodings(enc)
  {
    if rev == 0 then Ok(after.Keys)
    else
      var previous :- RevisionRead(log, enc, key, rev - 1);
      if previous.None? then Ok(after.Keys) else Ok(ChangedKeys(previous.value.payload, after))
  }

  /** `_reconstruct` */
  function DurableNotice<T(!new), M(!new)>(
      app: App<T, M>, log: Log, enc: Encodings, key: Key, rev: int): Result<Notice<T, M>>
    requires ValidEncodings(enc) && ServedAt(app, log, RowKey(key, rev))
  {
    if rev < 0 then Err(DeliveryError)
    else
      var found :- RevisionRead(log, enc, key, rev);
      if found.None? then Err(DeliveryError)
      else
        var revision :- Hydrate(app, found.value);
        var changed :- DurableChanged(log, enc, key, rev, found.value.payload);
        Ok(Notice(found.value.kind, revision, changed))
  }

  /** The worker's rebuild, through the store's read path. */
  method Reconstruct<T(!new), M(!new)>(store: SqlStore, app: App<T, M>, key: Key, rev: int)
    returns (r: Result<Notice<T, M>>)
    requires store.Valid() && ServedAt(app, store.log, RowKey(key, rev))
    ensures r == DurableNotice(app, store.log, store.encodings, key, rev)
  {
    hide RevisionRead, UpcastTree;
    if rev < 0 { return Err(DeliveryError); }
    var stored := store.Revision(key, rev);
    if stored.Err? { return Err(stored.error); }
    if stored.value.None? { return Err(DeliveryError); }
    ReadKeepsVersions(app, store.log, store.encodings, key, rev);
    var revision := Hydrate(app, stored.value.value);
    if revision.Err? { return Err(revision.error); }
    var changed := stored.value.value.payload.Keys;
    if rev != 0 {
      var previous := store.Revision(key, rev - 1);
      if previous.Err? { return Err(previous.error); }
      if previous.value.Some? { changed := ChangedKeys(previous.value.value.payload, stored.value.value.payload); }
    }
    return Ok(Notice(stored.value.value.kind, revision.value, changed));
  }

  lemma ReadKeepsVersions<T(!new), M(!new)>(app: App<T, M>, log: Log, enc: Encodings, key: Key, rev: int)
    requires ValidEncodings(enc) && ServedAt(app, log, RowKey(key, rev))
    ensures match RevisionRead(log, enc, key, rev)
      case Ok(Some(s)) => app.Serves(s.schema, s.metaVersion)
      case _ => true
  {
  }

  /** Rebuilding on any log: a row that is absent, or a negative revision, cannot be
      delivered; without its predecessor every key of a revision counts as changed. */
  lemma RebuildOnAnyLog<T(!new), M(!new)>(app: App<T, M>, log: Log, enc: Encodings, key: Key, rev: int)
    requires ValidEncodings(enc) && ServedAt(app, log, RowKey(key, rev))
    ensures rev < 0 || RowKey(key, rev) !in log ==> DurableNotice(app, log, enc, key, rev) == Err(DeliveryError)
    ensures DurableNotice(app, log, enc, key, rev).Ok? && RowKey(key, rev - 1) !in log ==>
      Decoded(log, enc, key, rev).Ok?
      && DurableNotice(app, log, enc, key, rev).value.changed == Decoded(log, enc, key, rev).value.Keys
  {
    hide Decoded, Hydrate;
  }

  // ------------------------------------------------------------ inline dispatch

  predicate RunsInline(s: Subscription, stream: string, kind: Kind) {
    s.stream == stream && kind in s.kinds && s.delivery.Inline?
  }

  /** The inline subscriptions a commit reaches, in declaration order. */
  function Reached(subs: seq<Subscription>, stream: string, kind: Kind): seq<string> {
    if subs == [] then []
    else
      var s := subs[|subs| - 1];
      Reached(subs[..|subs| - 1], stream, kind) + if RunsInline(s, stream, kind) then [s.id] else []
  }

  /** Every matching subscription is served once: inline now, or by the intent it is owed. */
  lemma {:induction false} ReachedOrOwed(subs: seq<Subscription>, stream: string, kind: Kind, rid: RowKey, i: nat)
    requires i < |subs| && subs[i].stream == stream && kind in subs[i].kinds
    ensures subs[i].delivery.Inline? ==> subs[i].id in Reached(subs, stream, kind)
    ensures subs[i].delivery.OutboxDelivery? ==> IntentFrom(subs[i], rid) in IntentsOwed(subs, stream, kind, rid)
    ensures |Reached(subs, stream, kind)| + |IntentsOwed(subs, stream, kind, rid)| <= |subs|
  {
    OwedExactly(subs, stream, kind, rid, if subs[i].delivery.OutboxDelivery? then IntentFrom(subs[i], rid)
                                         else IntentRequest("", rid, ""));
    ReachedExactly(subs, stream, kind, subs[i].id);
    ServedAtMostOnce(subs, stream, kind, rid);
  }

  /** Exactly the inline subscriptions to the stream and kind are reached. */
  lemma {:induction false} ReachedExactly(subs: seq<Subscription>, stream: string, kind: Kind, id: string)
    ensures id in Reached(subs, stream, kind) <==>
      exists s :: s in subs && s.stream == stream && kind in s.kinds && s.delivery.Inline? && s.id == id
  {
    if subs != [] {
      var front, last := subs[..|subs| - 1], subs[|subs| - 1];
      assert subs == front + [last];
      ReachedExactly(front, stream, kind, id);
    }
  }

  /** They are reached in declaration order, each once. */
  lemma {:induction false} ReachedInOrder(
      subs: seq<Subscription>, stream: string, kind: Kind, a: nat, b: nat) returns (i: nat, j: nat)
    requires a < b < |Reached(subs, stream, kind)|
    ensures i < j < |subs| && RunsInline(subs[i], stream, kind) && RunsInline(subs[j], stream, kind)
    ensures subs[i].id == Reached(subs, stream, kind)[a] && subs[j].id == Reached(subs, stream, kind)[b]
  {
    var n := |subs| - 1;
    var front := Reached(subs[..n], stream, kind);
    if b < |front| {
      i, j := ReachedInOrder(subs[..n], stream, kind, a, b);
    } else {
      i := ReachedAt(subs[..n], stream, kind, a);
      j := n;
    }
  }

  lemma {:induction false} ReachedAt(subs: seq<Subscription>, stream: string, kind: Kind, a: nat) returns (i: nat)
    requires a < |Reached(subs, stream, kind)|
    ensures i < |subs| && RunsInline(subs[i], stream, kind) && subs[i].id == Reached(subs, stream, kind)[a]
  {
    var n := |subs| - 1;
    if a < |Reached(subs[..n], stream, kind)| { i := ReachedAt(subs[..n], stream, kind, a); } else { i := n; }
  }

  /** With loud failures inline dispatch raises exactly when the handler of some
      reached subscription does; otherwise it never raises. */
  lemma RaisesExactly(subs: seq<Subscription>, stream: string, kind: Kind, raises: string -> bool, loud: bool)
    ensures DispatchRaises(subs, stream, kind, raises, loud) <==>
      loud && exists s :: s in subs && s.stream == stream && kind in s.kinds && s.delivery.Inline? && raises(s.id)
  {
    forall id { ReachedExactly(subs, stream, kind, id); }
    if s :| s in subs && s.stream == stream && kind in s.kinds && s.delivery.Inline? && raises(s.id) {
      assert s.id in Reached(subs, stream, kind);
    }
  }

  lemma {:induction false} ServedAtMostOnce(subs: seq<Subscription>, stream: string, kind: Kind, rid: RowKey)
    ensures |Reached(subs, stream, kind)| + |IntentsOwed(subs, stream, kind, rid)| <= |subs|
  {
    if subs != [] { ServedAtMostOnce(subs[..|subs| - 1], stream, kind, rid); }
  }

  /** Some reached handler raises, and failures are not only logged. */
  predicate DispatchRaises(subs: seq<Subscription>, stream: string, kind: Kind, raises: string -> bool, loud: bool) {
    loud && exists id :: id in Reached(subs, stream, kind) && raises(id)
  }

  /** `dispatch_inline`: every reached handler runs, even after one raised. */
  method DispatchInline(subs: seq<Subscription>, stream: string, kind: Kind, raises: string -> bool, loud: bool)
    returns (ran: seq<string>, r: Result<()>)
    ensures ran == Reached(subs, stream, kind)
    ensures r == if DispatchRaises(subs, stream, kind, raises, loud) then Err(InlineDispatchError) else Ok(())
  {
    ran := [];
    var failed := false;
    var i := 0;
    assert subs[..0] == [];
    while i < |subs|
      invariant 0 <= i <= |subs| && ran == Reached(subs[..i], stream, kind)
      invariant failed <==> DispatchRaises(subs[..i], stream, kind, raises, loud)
    {
      assert subs[..i + 1][..i] == subs[..i];
      if RunsInline(subs[i], stream, kind) {
        ran := ran + [subs[i].id];
        assert subs[i].id in Reached(subs[..i + 1], stream, kind);
        if raises(subs[i].id) && loud { failed := true; }
      }
      i := i + 1;
    }
    assert subs[..i] == subs;
    return ran, if failed then Err(InlineDispatchError) else Ok(());
  }

  // ---------------------------------------------------------------------- batch

  /** A planned write waiting in a batch, with its stream's declarations and the
      state it was planned on. */
  datatype Entry<!T(!new), !M(!new)> = Entry(app: App<T, M>, req: CommitRequest, before: Option<T>) {

    ghost predicate Valid() {
      app.Serves(req.schema, req.metaVersion)
    }
  }

  function Requests<T(!new), M(!new)>(entries: seq<Entry<T, M>>): seq<CommitRequest> {
    seq(|entries|, i requires 0 <= i < |entries| => entries[i].req)
  }

  /** The entry's envelope, once it is committed with `result`. */
  function Hydrates<T(!new), M(!new)>(e: Entry<T, M>, result: CommitResult): Result<Notice<T, M>>
    requires e.Valid()
  {
    InlineNotice(e.app, e.req, result, e.before)
  }

  /** Dispatching the i-th entry's envelope raises. */
  predicate Interrupts<T(!new), M(!new)>(e: Entry<T, M>, i: nat, raises: (nat, string) -> bool, loud: bool) {
    DispatchRaises(e.app.subscriptions, e.app.stream, e.req.kind, id => raises(i, id), loud)
  }

  method Dispatch<T(!new), M(!new)>(e: Entry<T, M>, i: nat, raises: (nat, string) -> bool, loud: bool)
    returns (r: Result<()>)
    ensures r == if Interrupts(e, i, raises, loud) then Err(InlineDispatchError) else Ok(())
  {
    hide DispatchRaises;
    var ran, dispatched := DispatchInline(e.app.subscriptions, e.app.stream, e.req.kind, id => raises(i, id), loud);
    return dispatched;
  }

  /** One envelope per entry in order, up to the first entry that does not hydrate,
      which is not sent, or whose inline handlers raise, which is. */
  ghost predicate SentInOrder<T(!new), M(!new)>(
      entries: seq<Entry<T, M>>, results: seq<CommitResult>, raises: (nat, string) -> bool, loud: bool,
      sent: seq<Notice<T, M>>, r: Result<()>)
    requires |results| == |entries| && forall i :: 0 <= i < |entries| ==> entries[i].Valid()
  {
    var n := |sent|;
    && n <= |entries|
    && (forall i :: 0 <= i < n ==> Hydrates(entries[i], results[i]) == Ok(sent[i]))
    && (forall i :: 0 <= i < n - 1 ==> !Interrupts(entries[i], i, raises, loud))
    && match r
       case Ok(_) => n == |entries| && (n > 0 ==> !Interrupts(entries[n - 1], n - 1, raises, loud))
       case Err(e) =>
         if n > 0 && Interrupts(entries[n - 1], n - 1, raises, loud) then e == InlineDispatchError
         else n < |entries| && Hydrates(entries[n], results[n]) == Err(e)
  }

  /** The loop of `_commit_all` over the committed entries. */
  method SendAll<T(!new), M(!new)>(
      entries: seq<Entry<T, M>>, results: seq<CommitResult>, raises: (nat, string) -> bool, loud: bool)
    returns (sent: seq<Notice<T, M>>, r: Result<()>)
    requires |results| == |entries| && forall i :: 0 <= i < |entries| ==> entries[i].Valid()
    ensures SentInOrder(entries, results, raises, loud, sent, r)
  {
    hide Hydrates, Interrupts;
    sent := [];
    var i := 0;
    while i < |entries|
      invariant 0 <= i == |sent| <= |entries|
      invariant forall k :: 0 <= k < i ==> Hydrates(entries[k], results[k]) == Ok(sent[k])
      invariant forall k :: 0 <= k < i ==> !Interrupts(entries[k], k, raises, loud)
    {
      var e := entries[i];
      var c := Hydrates(e, results[i]);
      if c.Err? { return sent, Err(c.error); }
      sent := sent + [c.value];
      var dispatched := Dispatch(e, i, raises, loud);
      if dispatched.Err? { return sent, Err(dispatched.error); }
      i := i + 1;
    }
    return sent, Ok(());
  }

  /** The envelope is of the entry's own request: its aggregate, its target, its kind
      and the transaction's time. */
  predicate Names<T(!new), M(!new)>(n: Notice<T, M>, e: Entry<T, M>, now: Time) {
    && n.kind == e.req.kind && n.revision.key == e.req.key && n.revision.rev == Target(e.req)
    && n.revision.rid == RowKey(e.req.key, Target(e.req)) && n.revision.at == now && n.revision.digest == e.req.digest
  }

  lemma SentNames<T(!new), M(!new)>(
      entries: seq<Entry<T, M>>, results: seq<CommitResult>, raises: (nat, string) -> bool, loud: bool,
      sent: seq<Notice<T, M>>, r: Result<()>, now: Time)
    requires |results| == |entries| && forall i :: 0 <= i < |entries| ==> entries[i].Valid()
    requires SentInOrder(entries, results, raises, loud, sent, r)
    requires forall i :: 0 <= i < |entries| ==> results[i].rev == Target(entries[i].req) && results[i].at == now
    ensures |sent| <= |entries| && forall i :: 0 <= i < |sent| ==> Names(sent[i], entries[i], now)
  {
    hide Interrupts, Names, Hydrates;
    forall i | 0 <= i < |sent| ensures Names(sent[i], entries[i], now) {
      assert Hydrates(entries[i], results[i]) == Ok(sent[i]);
      HydratesNames(entries[i], results[i], now);
    }
  }

  lemma HydratesNames<T(!new), M(!new)>(e: Entry<T, M>, result: CommitResult, now: Time)
    requires e.Valid() && result.rev == Target(e.req) && result.at == now && Hydrates(e, result).Ok?
    ensures Names(Hydrates(e, result).value, e, now)
  {
  }

  class Batch<T(!new), M(!new)> {
    const store: SqlStore
    var entries: seq<Entry<T, M>>

    ghost predicate Valid()
      reads this
    {
      store.Valid() && forall i :: 0 <= i < |entries| ==> entries[i].Valid()
    }

    constructor (store: SqlStore)
      requires store.Valid()
      ensures Valid() && entries == [] && this.store == store
    {
      this.store, entries := store, [];
    }

    /** `_add`: nothing reaches the store yet. */
    method Add(e: Entry<T, M>)
      requires Valid() && e.Valid()
      modifies this`entries
      ensures Valid() && entries == old(entries) + [e]
    {
      entries := entries + [e];
    }

    /** `_commit_all`: one transaction for all entries, of whatever streams, then
        the envelopes.  A failed transaction sends nothing. */
    method CommitAll(now: Time, raises: (nat, string) -> bool, loud: bool)
      returns (sent: seq<Notice<T, M>>, r: Result<()>)
      requires Valid()
      modifies store`log, store`heads, store`intents, store`ledger
      ensures var (db, outcome) :=
          Transact(old(store.Contents()), store.encodings, store.maxBatch, Requests(entries), now);
        && store.Contents() == db
        && (outcome.Err? ==> db == old(store.Contents()) && sent == [] && r == Err(outcome.error))
        && (outcome.Ok? ==>
              |outcome.value| == |entries| && SentInOrder(entries, outcome.value, raises, loud, sent, r))
      ensures |sent| <= |entries| && forall i :: 0 <= i < |sent| ==> Names(sent[i], entries[i], now)
    {
      hide CommitOne, ValidEncodings, SentInOrder, Entry.Valid, Names;
      ghost var before := store.Contents();
      var results := store.Commit(Requests(entries), now);
      if results.Err? { return [], Err(results.error); }
      OneResultEach(before, store.encodings, Requests(entries), now);
      sent, r := SendAll(entries, results.value, raises, loud);
      SentNames(entries, results.value, raises, loud, sent, r, now);
    }
  }
}
