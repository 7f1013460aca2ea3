/** What one commit transaction does to the tables. */
module Commits {
  import opened Results
  import opened JsonValues
  import opened DeltaEncoding
  import opened Tables
  import opened LogReads

  function Target(req: CommitRequest): int {
    if req.expected.None? then 0 else req.expected.value + 1
  }

  function TargetKey(req: CommitRequest): RowKey {
    RowKey(req.key, Target(req))
  }

  /** `_is_identical`: every durable column but the payload, metadata by Python `==`. */
  predicate Identical(row: Row, req: CommitRequest) {
    && row.kind == req.kind
    && row.schema == req.schema
    && row.metaVersion == req.metaVersion
    && row.digest == req.digest
    && DocEq(row.meta, Loads(req.meta))
  }

  datatype Decision = Replay(row: Row) | Refuse | Append(base: Option<Head>)

  /** Replay, conflict, or append: decided from the head and the target row that were read. */
  function Decide(head: Option<Head>, existing: Option<Row>, req: CommitRequest): Decision {
    if existing.Some? then
      if Identical(existing.value, req) then Replay(existing.value) else Refuse
    else if head.None? then
      if req.expected.Some? then Refuse else Append(head)
    else if req.expected.None? || head.value.rev != req.expected.value then Refuse
    else Append(head)
  }

  function HeadFromRow(rk: RowKey, row: Row, doc: Doc): Head {
    Head(rk.rev, rk, row.schema, row.metaVersion, doc, row.digest, row.meta, row.at)
  }

  /** `_upsert_head_from_row`, run only when the head is missing or behind. */
  function RepairHead(db: Db, enc: Encodings, rk: RowKey, row: Row): Result<Db>
    requires ValidEncodings(enc)
  {
    if rk.key in db.heads && db.heads[rk.key].rev >= rk.rev then Ok(db)
    else
      var doc :- Decoded(db.log, enc, rk.key, rk.rev);
      Ok(db.(heads := db.heads[rk.key := HeadFromRow(rk, row, doc)]))
  }

  /** A full document without a base or at a checkpoint, a patch over the head otherwise. */
  function PhysicalPayload(enc: Encodings, base: Option<Head>, req: CommitRequest): Physical
    requires ValidEncodings(enc)
  {
    match EncodingFor(enc, req.key.stream)
    case SnapshotEncoding => Full(Loads(req.payload))
    case DeltaEncoded(every) =>
      if base.None? || IsCheckpoint(every, Target(req)) then Full(Loads(req.payload))
      else Delta(Encode(every, Loads(req.payload), base.value.state, base.value.rev))
  }

  function NewRow(enc: Encodings, base: Option<Head>, req: CommitRequest, now: Time): Row
    requires ValidEncodings(enc)
  {
    Row(req.kind, req.schema, req.metaVersion, PhysicalPayload(enc, base, req), req.digest,
        Loads(req.meta), now)
  }

  /** The CHECK constraints of `eventic_revision` that a request can violate. */
  predicate RowAllowed(req: CommitRequest) {
    && Target(req) >= 0
    && req.schema >= 1
    && (Target(req) == 0 <==> req.kind == Create)
    && req.key.stream != ""
  }

  function NewIntent(ir: IntentRequest, now: Time): Intent {
    Intent(ir.queue, Pending, 0, now, None, None, now)
  }

  /** One INSERT per intent, in order; a constraint violation is a StoreError. */
  function InsertIntents(intents: Intents, irs: seq<IntentRequest>, now: Time): Result<Intents> {
    if irs == [] then Ok(intents)
    else
      var before :- InsertIntents(intents, irs[..|irs| - 1], now);
      var ir := irs[|irs| - 1];
      if ir.queue == "" || IntentKey(ir.sub, ir.rid) in before then Err(StoreError)
      else Ok(before[IntentKey(ir.sub, ir.rid) := NewIntent(ir, now)])
  }

  /** `upsert_fingerprint`: the first fingerprint seen for a schema version stays. */
  function RecordFingerprint(ledger: Ledger, req: CommitRequest, now: Time): Ledger {
    if (req.key.stream, req.schema) in ledger then ledger
    else ledger[(req.key.stream, req.schema) := Fingerprint(req.fingerprint, now)]
  }

  /** Insert the row, decode it back, require the request's bytes, then write
      the head, the intents and the fingerprint. */
  function AppendRow(db: Db, enc: Encodings, base: Option<Head>, req: CommitRequest, now: Time): Result<Db>
    requires ValidEncodings(enc)
  {
    var rk := TargetKey(req);
    if !RowAllowed(req) then Err(StoreError)
    else if rk in db.log then Err(RevisionConflict)
    else
      var row := NewRow(enc, base, req, now);
      var log := db.log[rk := row];
      var doc :- Decoded(log, enc, req.key, rk.rev);
      if CanonicalBytes(doc) != req.payload then Err(EncodingError)
      else
        var intents :- InsertIntents(db.intents, req.intents, now);
        Ok(Db(log, db.heads[req.key := HeadFromRow(rk, row, doc)], intents,
              RecordFingerprint(db.ledger, req, now)))
  }

  datatype Committed = Committed(db: Db, result: CommitResult)

  /** `_commit_one` */
  function CommitOne(db: Db, enc: Encodings, req: CommitRequest, now: Time): Result<Committed>
    requires ValidEncodings(enc)
  {
    match Decide(HeadOf(db.heads, req.key), RowOf(db.log, TargetKey(req)), req)
    case Refuse => Err(RevisionConflict)
    case Replay(row) =>
      var db' :- RepairHead(db, enc, TargetKey(req), row);
      Ok(Committed(db', CommitResult(req.key, Target(req), now, true)))
    case Append(base) =>
      var db' :- AppendRow(db, enc, base, req, now);
      Ok(Committed(db', CommitResult(req.key, Target(req), now, false)))
  }

  datatype Batch = Batch(db: Db, results: seq<CommitResult>)

  function CommitAll(db: Db, enc: Encodings, reqs: seq<CommitRequest>, now: Time): Result<Batch>
    requires ValidEncodings(enc)
  {
    if reqs == [] then Ok(Batch(db, []))
    else
      var before :- CommitAll(db, enc, reqs[..|reqs| - 1], now);
      var one :- CommitOne(before.db, enc, reqs[|reqs| - 1], now);
      Ok(Batch(one.db, before.results + [one.result]))
  }

  /** The whole transaction: all requests, or an error and no effect. */
  function Transact(db: Db, enc: Encodings, maxBatch: nat, reqs: seq<CommitRequest>, now: Time):
    (Db, Result<seq<CommitResult>>)
    requires ValidEncodings(enc)
  {
    if |reqs| > maxBatch then (db, Err(UsageError))
    else
      match CommitAll(db, enc, reqs, now)
      case Err(e) => (db, Err(e))
      case Ok(b) => (b.db, Ok(b.results))
  }

  /** One result per request, in order, naming its target and the clock reading. */
  lemma {:induction false} OneResultEach(db: Db, enc: Encodings, reqs: seq<CommitRequest>, now: Time)
    requires ValidEncodings(enc)
    ensures CommitAll(db, enc, reqs, now).Ok? ==> |CommitAll(db, enc, reqs, now).value.results| == |reqs|
    ensures CommitAll(db, enc, reqs, now).Ok? ==>
      forall i :: 0 <= i < |reqs| ==>
        var res := CommitAll(db, enc, reqs, now).value.results[i];
        res.key == reqs[i].key && res.rev == Target(reqs[i]) && res.at == now
    decreases |reqs|
  {
    hide CommitOne, Target;
    if reqs != [] {
      OneResultEach(db, enc, reqs[..|reqs| - 1], now);
      if CommitAll(db, enc, reqs, now).Ok? {
        var before := CommitAll(db, enc, reqs[..|reqs| - 1], now).value;
        ResultNamesTarget(before.db, enc, reqs[|reqs| - 1], now);
      }
    }
  }

  lemma ResultNamesTarget(db: Db, enc: Encodings, req: CommitRequest, now: Time)
    requires ValidEncodings(enc) && CommitOne(db, enc, req, now).Ok?
    ensures var res := CommitOne(db, enc, req, now).value.result;
      res.key == req.key && res.rev == Target(req) && res.at == now
  {
  }

  // -------------------------------------------------- batch equals sequential

  /** The same requests as one-request transactions at one clock reading, each
      keeping its own outcome. */
  function OneByOne(db: Db, enc: Encodings, maxBatch: nat, reqs: seq<CommitRequest>, now: Time):
    (Db, seq<Result<seq<CommitResult>>>)
    requires ValidEncodings(enc)
  {
    if reqs == [] then (db, [])
    else
      var (before, outcomes) := OneByOne(db, enc, maxBatch, reqs[..|reqs| - 1], now);
      var (after, outcome) := Transact(before, enc, maxBatch, [reqs[|reqs| - 1]], now);
      (after, outcomes + [outcome])
  }

  predicate AllOk(outcomes: seq<Result<seq<CommitResult>>>) {
    forall i :: 0 <= i < |outcomes| ==> outcomes[i].Ok?
  }

  function Flatten(outcomes: seq<Result<seq<CommitResult>>>): seq<CommitResult>
    requires AllOk(outcomes)
  {
    if outcomes == [] then []
    else Flatten(outcomes[..|outcomes| - 1]) + outcomes[|outcomes| - 1].value
  }

  /** A transaction of one request is that request's commit. */
  lemma SingleTransaction(db: Db, enc: Encodings, maxBatch: nat, req: CommitRequest, now: Time)
    requires ValidEncodings(enc) && maxBatch >= 1
    ensures Transact(db, enc, maxBatch, [req], now)
      == match CommitOne(db, enc, req, now)
         case Err(e) => (db, Err(e))
         case Ok(c) => (c.db, Ok([c.result]))
  {
    assert [req][..0] == [];
    assert CommitAll(db, enc, [], now) == Ok(Batch(db, []));
    if CommitOne(db, enc, req, now).Ok? {
      assert [] + [CommitOne(db, enc, req, now).value.result] == [CommitOne(db, enc, req, now).value.result];
    }
  }

  lemma {:induction false} CommitAllIsOneByOne(
      db: Db, enc: Encodings, maxBatch: nat, reqs: seq<CommitRequest>, now: Time)
    requires ValidEncodings(enc) && maxBatch >= 1
    ensures var (after, outcomes) := OneByOne(db, enc, maxBatch, reqs, now);
      && |outcomes| == |reqs|
      && (CommitAll(db, enc, reqs, now).Ok? <==> AllOk(outcomes))
      && (AllOk(outcomes) ==> CommitAll(db, enc, reqs, now) == Ok(Batch(after, Flatten(outcomes))))
    decreases |reqs|
  {
    if reqs != [] {
      var front, last := reqs[..|reqs| - 1], reqs[|reqs| - 1];
      CommitAllIsOneByOne(db, enc, maxBatch, front, now);
      var (before, outs) := OneByOne(db, enc, maxBatch, front, now);
      SingleTransaction(before, enc, maxBatch, last, now);
      var outcome := Transact(before, enc, maxBatch, [last], now).1;
      var all := outs + [outcome];
      assert all[..|all| - 1] == outs && all[|all| - 1] == outcome;
      assert AllOk(all) <==> AllOk(outs) && outcome.Ok?;
    }
  }

  /** The first commit of the sequence that fails. */
  ghost predicate FirstFailure(outcomes: seq<Result<seq<CommitResult>>>, i: nat, error: Error) {
    i < |outcomes| && outcomes[i] == Err(error) && AllOk(outcomes[..i])
  }

  lemma {:induction false} BatchFailsAsFirst(
      db: Db, enc: Encodings, maxBatch: nat, reqs: seq<CommitRequest>, now: Time) returns (i: nat)
    requires ValidEncodings(enc) && maxBatch >= 1 && CommitAll(db, enc, reqs, now).Err?
    ensures FirstFailure(OneByOne(db, enc, maxBatch, reqs, now).1, i, CommitAll(db, enc, reqs, now).error)
    decreases |reqs|
  {
    hide CommitOne, Transact, AllOk;
    var front, last := reqs[..|reqs| - 1], reqs[|reqs| - 1];
    CommitAllIsOneByOne(db, enc, maxBatch, front, now);
    var (before, outs) := OneByOne(db, enc, maxBatch, front, now);
    var all := OneByOne(db, enc, maxBatch, reqs, now).1;
    if CommitAll(db, enc, front, now).Err? {
      i := BatchFailsAsFirst(db, enc, maxBatch, front, now);
      assert all[..i] == outs[..i] && all[i] == outs[i];
    } else {
      i := |front|;
      SingleTransaction(before, enc, maxBatch, last, now);
      assert all[..i] == outs;
    }
  }

  /** A batch within capacity either gives the state and the ordered results of
      committing its requests one by one at the same clock reading, and does so
      exactly when every one of those commits succeeds, or changes nothing and
      fails with the error of the first of them that fails. */
  lemma BatchEqualsSequentialOrNothing(db: Db, enc: Encodings, maxBatch: nat, reqs: seq<CommitRequest>, now: Time)
    requires ValidEncodings(enc) && 1 <= maxBatch
    ensures var (after, outcomes) := OneByOne(db, enc, maxBatch, reqs, now);
      var (batched, result) := Transact(db, enc, maxBatch, reqs, now);
      && (result.Ok? <==> |reqs| <= maxBatch && AllOk(outcomes))
      && (result.Ok? ==> batched == after && result.value == Flatten(outcomes))
      && (result.Err? ==> batched == db)
      && (result.Err? && |reqs| > maxBatch ==> result.error == UsageError)
      && (result.Err? && |reqs| <= maxBatch ==> exists i :: FirstFailure(outcomes, i, result.error))
  {
    hide CommitAll, OneByOne, AllOk, FirstFailure;
    CommitAllIsOneByOne(db, enc, maxBatch, reqs, now);
    if CommitAll(db, enc, reqs, now).Err? { var i := BatchFailsAsFirst(db, enc, maxBatch, reqs, now); }
  }
}
