/** The store: tables as fields, one method per transaction, each proved to have
    the effect its specification function gives. */
module Store {
  import opened Results
  import opened JsonValues
  import opened DeltaEncoding
  import opened Tables
  import opened LogReads
  import opened Commits
  import opened Ordering
  import opened Paging
  import opened Outbox

  /** `revision`: absent rows read as nothing, undecodable ones as errors. */
  function RevisionRead(log: Log, enc: Encodings, key: Key, r: int): Result<Option<StoredRevision>>
    requires ValidEncodings(enc)
  {
    if r < 0 then Err(UsageError)
    else if RowKey(key, r) !in log then Ok(None)
    else
      var doc :- Decoded(log, enc, key, r);
      Ok(Some(StoredFromRow(key, r, log[RowKey(key, r)], doc)))
  }

  class SqlStore {
    var log: Log
    var heads: Heads
    var intents: Intents
    var ledger: Ledger
    const encodings: Encodings
    const maxBatch: nat

    ghost predicate Valid() {
      ValidEncodings(encodings)
    }

    ghost function Contents(): Db
      reads this
    {
      Db(log, heads, intents, ledger)
    }

    constructor (encodings: Encodings, maxBatch: nat)
      requires ValidEncodings(encodings)
      ensures Valid() && Contents() == Db(map[], map[], map[], map[])
      ensures this.encodings == encodings && this.maxBatch == maxBatch
    {
      this.encodings := encodings;
      this.maxBatch := maxBatch;
      log, heads, intents, ledger := map[], map[], map[], map[];
    }

    // ----------------------------------------------------------- write path

    /** All requests in one transaction: every effect or none. */
    method Commit(reqs: seq<CommitRequest>, now: Time) returns (r: Result<seq<CommitResult>>)
      requires Valid()
      modifies this`log, this`heads, this`intents, this`ledger
      ensures (Contents(), r) == Transact(old(Contents()), encodings, maxBatch, reqs, now)
    {
      hide Commits.CommitOne, ValidEncodings;
      if |reqs| > maxBatch {
        return Err(UsageError);
      }
      ghost var start := Contents();
      var log0, heads0, intents0, ledger0 := log, heads, intents, ledger;
      var results: seq<CommitResult> := [];
      var i := 0;
      assert reqs[..0] == [];
      while i < |reqs|
        invariant 0 <= i <= |reqs|
        invariant CommitAll(start, encodings, reqs[..i], now) == Ok(Batch(Contents(), results))
      {
        assert reqs[..i + 1][..i] == reqs[..i];
        var one := CommitOne(reqs[i], now);
        if one.Err? {
          FailedPrefix(start, encodings, reqs, i + 1, now);
          log, heads, intents, ledger := log0, heads0, intents0, ledger0;
          return Err(one.error);
        }
        results := results + [one.value];
        i := i + 1;
      }
      assert reqs[..i] == reqs;
      return Ok(results);
    }

    /** `_commit_one`: replay, refuse, or append one request.  After an error the
        enclosing transaction rolls back. */
    method CommitOne(req: CommitRequest, now: Time) returns (r: Result<CommitResult>)
      requires Valid()
      modifies this`log, this`heads, this`intents, this`ledger
      ensures match Commits.CommitOne(old(Contents()), encodings, req, now)
        case Err(e) => r == Err(e)
        case Ok(c) => r == Ok(c.result) && Contents() == c.db
    {
      hide Decoded, PhysicalPayload, InsertIntents;
      var rk := TargetKey(req);
      var head := HeadOf(heads, req.key);
      match Decide(head, RowOf(log, rk), req) {
        case Refuse =>
          return Err(RevisionConflict);
        case Replay(row) =>
          if head.None? || head.value.rev < rk.rev {
            var doc := DecodeLogRevision(req.key, rk.rev);
            if doc.Err? { return Err(doc.error); }
            heads := heads[req.key := HeadFromRow(rk, row, doc.value)];
          }
          return Ok(CommitResult(req.key, Target(req), now, true));
        case Append(base) =>
          var appended := Append(req, base, now);
          if appended.Err? { return Err(appended.error); }
          return Ok(CommitResult(req.key, Target(req), now, false));
      }
    }

    /** Insert the row, read it back, compare bytes, then head, intents, fingerprint. */
    method Append(req: CommitRequest, base: Option<Head>, now: Time) returns (r: Result<()>)
      requires Valid()
      modifies this`log, this`heads, this`intents, this`ledger
      ensures match AppendRow(old(Contents()), encodings, base, req, now)
        case Err(e) => r == Err(e)
        case Ok(db) => r.Ok? && Contents() == db
    {
      hide Decoded, PhysicalPayload, InsertIntents;
      var rk := TargetKey(req);
      if !RowAllowed(req) { return Err(StoreError); }
      if rk in log { return Err(RevisionConflict); }
      var row := NewRow(encodings, base, req, now);
      log := log[rk := row];
      var doc := DecodeLogRevision(req.key, rk.rev);
      if doc.Err? { return Err(doc.error); }
      if CanonicalBytes(doc.value) != req.payload { return Err(EncodingError); }
      heads := heads[req.key := HeadFromRow(rk, row, doc.value)];
      var staged := StageIntents(req.intents, now);
      if staged.Err? { return Err(staged.error); }
      ledger := RecordFingerprint(ledger, req, now);
      return Ok(());
    }

    method StageIntents(irs: seq<IntentRequest>, now: Time) returns (r: Result<()>)
      modifies this`intents
      ensures match InsertIntents(old(intents), irs, now)
        case Err(e) => r == Err(e)
        case Ok(after) => r.Ok? && intents == after
    {
      var i := 0;
      assert irs[..0] == [];
      while i < |irs|
        invariant 0 <= i <= |irs|
        invariant InsertIntents(old(intents), irs[..i], now) == Ok(intents)
      {
        assert irs[..i + 1][..i] == irs[..i];
        var ir := irs[i];
        if ir.queue == "" || IntentKey(ir.sub, ir.rid) in intents {
          FailedIntents(old(intents), irs, i + 1, now);
          return Err(StoreError);
        }
        intents := intents[IntentKey(ir.sub, ir.rid) := NewIntent(ir, now)];
        i := i + 1;
      }
      assert irs[..i] == irs;
      return Ok(());
    }

    // ------------------------------------------------------------ read path

    /** `_decode_log_revision` */
    method DecodeLogRevision(key: Key, revision: int) returns (r: Result<Doc>)
      requires Valid()
      ensures r == Decoded(log, encodings, key, revision)
    {
      match EncodingFor(encodings, key.stream) {
        case DeltaEncoded(every) =>
          r := DecodeRange(key, WindowStart(every, revision), revision);
        case SnapshotEncoding =>
          var rk := RowKey(key, revision);
          if rk !in log { return Err(NotFound); }
          match log[rk].payload {
            case Full(d) => r := Ok(d);
            case Delta(p) => r := DecodeRange(key, Max(0, revision - SpanOf(p)), revision);
          }
      }
    }

    method DecodeRange(key: Key, lo: int, revision: int) returns (r: Result<Doc>)
      ensures r == DecodedWindow(Window(log, key, lo, revision), revision)
    {
      WindowRows(log, key, lo, revision);
      r := DecodeWindow(Window(log, key, lo, revision), revision);
    }

    method Revision(key: Key, revision: int) returns (r: Result<Option<StoredRevision>>)
      requires Valid()
      ensures r == RevisionRead(log, encodings, key, revision)
    {
      if revision < 0 { return Err(UsageError); }
      if RowKey(key, revision) !in log { return Ok(None); }
      var doc := DecodeLogRevision(key, revision);
      if doc.Err? { return Err(doc.error); }
      return Ok(Some(StoredFromRow(key, revision, log[RowKey(key, revision)], doc.value)));
    }

    method Head(key: Key) returns (r: Option<StoredRevision>)
      ensures r == if key in heads then Some(StoredFromHead(key, heads[key])) else None
    {
      if key !in heads { return None; }
      return Some(StoredFromHead(key, heads[key]));
    }

    /** `select_history` */
    method SelectHistory(key: Key, after: int, limit: nat) returns (revs: seq<int>)
      ensures revs == HistoryRevs(log, key, after, limit)
    {
      hide StrictTotal;
      IntOrder();
      revs := SelectPage(RevisionsOf(log, key), Some(after), limit, IntLess);
    }

    method History(key: Key, after: int, limit: int) returns (r: Result<Page<StoredRevision, int>>)
      requires Valid()
      ensures r == HistoryPage(log, encodings, key, after, limit)
      ensures limit < 1 ==> r == Err(UsageError)
    {
      hide Decoded, ValidEncodings, HistoryRevs;
      if limit < 1 { return Err(UsageError); }
      var revs := SelectHistory(key, after, limit);
      var items: seq<StoredRevision> := [];
      var i := 0;
      assert revs[..0] == [];
      while i < |revs|
        invariant 0 <= i <= |revs|
        invariant HistoryItems(log, encodings, key, revs[..i]) == Ok(items)
      {
        assert revs[..i + 1][..i] == revs[..i];
        var doc := DecodeLogRevision(key, revs[i]);
        if doc.Err? || RowKey(key, revs[i]) !in log {
          FailedItems(log, encodings, key, revs, i + 1);
          return Err(if doc.Err? then doc.error else NotFound);
        }
        items := items + [StoredFromRow(key, revs[i], log[RowKey(key, revs[i])], doc.value)];
        i := i + 1;
      }
      assert revs[..i] == revs;
      return Ok(Page(items, NextCursor(revs, limit)));
    }

    method Search(stream: string, matches: Doc -> bool, cursor: Option<nat>, limit: int)
      returns (r: Result<Page<StoredRevision, nat>>)
      ensures r == SearchPage(heads, stream, matches, cursor, limit)
      ensures limit < 1 ==> r == Err(UsageError)
    {
      hide StrictTotal;
      if limit < 1 { return Err(UsageError); }
      IdOrder();
      var ids := SelectPage(MatchingIds(heads, stream, matches), cursor, limit, IdLess);
      assert ids == SearchIds(heads, stream, matches, cursor, limit);
      SearchedHeadsExist(heads, stream, matches, cursor, limit);
      return Ok(Page(SearchItems(heads, stream, ids), NextCursor(ids, limit)));
    }

    // ------------------------------------------------------------- delivery

    /** `claim`: lease the selected rows and hand them out with bumped attempts. */
    method Claim(queue: string, limit: int, lease: Time, now: Time)
      returns (r: Result<seq<Claimed>>, ghost sel: seq<IntentKey>)
      modifies this`intents
      ensures limit < 1 ==> r == Err(UsageError) && intents == old(intents)
      ensures limit >= 1 ==>
        && ClaimSelects(sel, old(intents), log, queue, limit, now)
        && intents == MarkLeased(old(intents), sel, now + lease)
        && r.Ok? && |r.value| == |sel|
        && forall i :: 0 <= i < |sel| ==> sel[i] in old(intents) && r.value[i] == ClaimedFrom(old(intents), sel[i])
    {
      if limit < 1 { return Err(UsageError), []; }
      var rows := SelectClaim(intents, log, queue, limit, now);
      var before := intents;
      var claimed := seq(|rows|, i requires 0 <= i < |rows| && rows[i] in before => ClaimedFrom(before, rows[i]));
      intents := MarkLeased(intents, rows, now + lease);
      return Ok(claimed), rows;
    }

    /** `settle`: one statement per settlement, in one transaction. */
    method Settle(settlements: seq<Settlement>)
      modifies this`intents
      ensures intents == SettleAll(old(intents), settlements)
    {
      var i := 0;
      assert settlements[..0] == [];
      while i < |settlements|
        invariant 0 <= i <= |settlements|
        invariant intents == SettleAll(old(intents), settlements[..i])
      {
        assert settlements[..i + 1][..i] == settlements[..i];
        intents := SettleOne(intents, settlements[i]);
        i := i + 1;
      }
      assert settlements[..i] == settlements;
    }
  }

  /** A failing prefix fails the batch with the same error. */
  lemma {:induction false} FailedPrefix(db: Db, enc: Encodings, reqs: seq<CommitRequest>, n: nat, now: Time)
    requires ValidEncodings(enc) && n <= |reqs| && CommitAll(db, enc, reqs[..n], now).Err?
    ensures CommitAll(db, enc, reqs, now) == CommitAll(db, enc, reqs[..n], now)
    decreases |reqs|
  {
    hide Commits.CommitOne;
    if n < |reqs| {
      assert reqs[..|reqs| - 1][..n] == reqs[..n];
      FailedPrefix(db, enc, reqs[..|reqs| - 1], n, now);
    } else {
      assert reqs[..n] == reqs;
    }
  }

  lemma {:induction false} FailedIntents(intents: Intents, irs: seq<IntentRequest>, n: nat, now: Time)
    requires n <= |irs| && InsertIntents(intents, irs[..n], now) == Err(StoreError)
    ensures InsertIntents(intents, irs, now) == Err(StoreError)
    decreases |irs|
  {
    if n < |irs| {
      assert irs[..|irs| - 1][..n] == irs[..n];
      FailedIntents(intents, irs[..|irs| - 1], n, now);
    } else {
      assert irs[..n] == irs;
    }
  }

  lemma {:induction false} FailedItems(log: Log, enc: Encodings, key: Key, revs: seq<int>, n: nat)
    requires ValidEncodings(enc) && n <= |revs| && HistoryItems(log, enc, key, revs[..n]).Err?
    ensures HistoryItems(log, enc, key, revs) == HistoryItems(log, enc, key, revs[..n])
    decreases |revs|
  {
    hide Decoded;
    if n < |revs| {
      assert revs[..|revs| - 1][..n] == revs[..n];
      FailedItems(log, enc, key, revs[..|revs| - 1], n);
    } else {
      assert revs[..n] == revs;
    }
  }
}
