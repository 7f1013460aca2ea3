/** The store's tables represent a plain history: per aggregate, the sequence of
    committed revisions.  Commits act on the tables as they do on the history. */
module Agreement {
  import opened Results
  import opened JsonValues
  import opened DeltaEncoding
  import opened Tables
  import opened LogReads
  import opened Commits

  /** A committed revision with its logical document. */
  datatype Revision = Revision(
    doc: Doc, kind: Kind, schema: int, metaVersion: int, digest: Digest, meta: Doc, at: Time)

  type History = map<Key, seq<Revision>>

  /** Per stream, the `every` the stream was last opened with as delta (1 if never). */
  type Grid = map<string, nat>

  function GridOf(grid: Grid, stream: string): nat {
    if stream in grid then grid[stream] else 1
  }

  function RevsOf(hist: History, key: Key): seq<Revision> {
    if key in hist then hist[key] else []
  }

  function RevisionOf(req: CommitRequest, at: Time): Revision {
    Revision(Loads(req.payload), req.kind, req.schema, req.metaVersion, req.digest, Loads(req.meta), at)
  }

  /** The head that commit keeps for an aggregate at revision `r`. */
  function ProjectedHead(key: Key, r: int, rev: Revision): Head {
    Head(r, RowKey(key, r), rev.schema, rev.metaVersion, rev.doc, rev.digest, rev.meta, rev.at)
  }

  predicate RowMatches(row: Row, rev: Revision) {
    && row.kind == rev.kind && row.schema == rev.schema && row.metaVersion == rev.metaVersion
    && row.digest == rev.digest && row.meta == rev.meta && row.at == rev.at
  }

  ghost predicate RevisionAgrees(log: Log, key: Key, r: int, rev: Revision) {
    && RowKey(key, r) in log
    && RowMatches(log[RowKey(key, r)], rev)
    && FullFold(log, key, r) == rev.doc
    && rev.digest == DigestOf(CanonicalBytes(rev.doc))
  }

  ghost predicate AggregateAgrees(log: Log, key: Key, revs: seq<Revision>, grid: nat) {
    && revs != []
    && Gridded(log, key, |revs|, grid)
    && forall r :: 0 <= r < |revs| ==> RevisionAgrees(log, key, r, revs[r])
  }

  /** The log is exactly revisions 0..n of each aggregate, and folds to the
      committed documents. */
  ghost predicate LogAgrees(log: Log, hist: History, grid: Grid) {
    && (forall rk :: rk in log <==> 0 <= rk.rev < |RevsOf(hist, rk.key)|)
    && (forall key :: key in hist ==> AggregateAgrees(log, key, hist[key], GridOf(grid, key.stream)))
  }

  /** Every aggregate has its head, at its last revision, and no other head exists. */
  ghost predicate HeadsAgree(heads: Heads, hist: History) {
    && heads.Keys == hist.Keys
    && forall key :: key in hist ==>
         hist[key] != [] && heads[key] == ProjectedHead(key, |hist[key]| - 1, hist[key][|hist[key]| - 1])
  }

  ghost predicate Agrees(db: Db, hist: History, grid: Grid) {
    LogAgrees(db.log, hist, grid) && HeadsAgree(db.heads, hist)
  }

  /** The configured encodings write on the grid. */
  ghost predicate OnGrid(enc: Encodings, grid: Grid) {
    && (forall s :: s in grid ==> grid[s] >= 1)
    && (forall s :: s in enc && enc[s].DeltaEncoded? ==> enc[s].every == GridOf(grid, s))
  }

  /** What planning guarantees: the digest is that of the payload, and each
      intent is for the revision being written. */
  predicate Planned(req: CommitRequest) {
    && req.digest == DigestOf(req.payload)
    && forall i :: 0 <= i < |req.intents| ==> req.intents[i].rid == TargetKey(req)
  }

  // ------------------------------------------------- reading an agreeing log

  /** On a gridded log the configured read is the full fold. */
  lemma DecodedOnGrid(log: Log, enc: Encodings, grid: Grid, key: Key, n: nat, r: int)
    requires OnGrid(enc, grid) && ValidEncodings(enc)
    requires Gridded(log, key, n, GridOf(grid, key.stream)) && 0 <= r < n
    ensures Decoded(log, enc, key, r) == Ok(FullFold(log, key, r))
  {
    var g := GridOf(grid, key.stream);
    match EncodingFor(enc, key.stream)
    case SnapshotEncoding => RowReadIsFullFold(log, key, n, g, r);
    case DeltaEncoded(every) =>
      assert g % g == 0;
      ConfiguredReadIsFullFold(log, key, n, g, every, r);
  }

  /** Every committed revision reads back as committed: through the configured
      encoding, through the row's own `every`, and through the full fold. */
  lemma ReadsAgree(log: Log, hist: History, grid: Grid, enc: Encodings, key: Key, r: int)
    requires LogAgrees(log, hist, grid) && OnGrid(enc, grid) && ValidEncodings(enc)
    requires 0 <= r < |RevsOf(hist, key)|
    ensures Decoded(log, enc, key, r) == Ok(hist[key][r].doc)
    ensures DecodedByRow(log, key, r) == Ok(hist[key][r].doc)
    ensures FullFold(log, key, r) == hist[key][r].doc
  {
    assert AggregateAgrees(log, key, hist[key], GridOf(grid, key.stream));
    assert RevisionAgrees(log, key, r, hist[key][r]);
    DecodedOnGrid(log, enc, grid, key, |hist[key]|, r);
    RowReadIsFullFold(log, key, |hist[key]|, GridOf(grid, key.stream), r);
  }

  // ------------------------------------------------------ commits on a history

  datatype Verdict = Replayed | Rejected(error: Error) | Accepted(rev: Revision)

  /** `expected_revision` names the current state: absent, or its last revision. */
  predicate ExpectedHolds(revs: seq<Revision>, req: CommitRequest) {
    match req.expected
    case None => revs == []
    case Some(e) => revs != [] && e == |revs| - 1
  }

  predicate SameRevision(rev: Revision, req: CommitRequest) {
    && rev.kind == req.kind && rev.schema == req.schema && rev.metaVersion == req.metaVersion
    && rev.digest == req.digest && DocEq(rev.meta, Loads(req.meta))
  }

  /** The request will be stored as a patch. */
  predicate StoredAsPatch(enc: Encodings, revs: seq<Revision>, req: CommitRequest)
    requires ValidEncodings(enc)
  {
    match EncodingFor(enc, req.key.stream)
    case SnapshotEncoding => false
    case DeltaEncoded(every) => revs != [] && |revs| % every != 0
  }

  /** The store can reproduce the request's exact bytes from what it will write. */
  predicate Reproducible(enc: Encodings, revs: seq<Revision>, req: CommitRequest)
    requires ValidEncodings(enc)
  {
    && req.payload.Canonical?
    && (StoredAsPatch(enc, revs, req) ==> !HiddenChange(revs[|revs| - 1].doc, Loads(req.payload)))
  }

  /** The outcome of a commit, decided from the history alone (and, for the
      intents' unique constraint, from the intents present). */
  function Judge(hist: History, enc: Encodings, intents: Intents, req: CommitRequest, now: Time): Verdict
    requires ValidEncodings(enc)
  {
    var revs := RevsOf(hist, req.key);
    if 0 <= Target(req) < |revs| then
      if SameRevision(revs[Target(req)], req) then Replayed else Rejected(RevisionConflict)
    else if !ExpectedHolds(revs, req) then Rejected(RevisionConflict)
    else if !RowAllowed(req) then Rejected(StoreError)
    else if !Reproducible(enc, revs, req) then Rejected(EncodingError)
    else if InsertIntents(intents, req.intents, now).Err? then Rejected(StoreError)
    else Accepted(RevisionOf(req, now))
  }

  lemma IntentErrors(intents: Intents, irs: seq<IntentRequest>, now: Time)
    ensures InsertIntents(intents, irs, now).Err? ==> InsertIntents(intents, irs, now) == Err(StoreError)
  {
  }

  /** The base document of an append, and the physical row it produces. */
  predicate RowFits(revs: seq<Revision>, enc: Encodings, grid: nat, req: CommitRequest, row: Row, now: Time)
    requires ValidEncodings(enc)
  {
    && RowMatches(row, RevisionOf(req, now))
    && row.payload == if StoredAsPatch(enc, revs, req)
                      then Delta(Encode(grid, Loads(req.payload), revs[|revs| - 1].doc, |revs| - 1))
                      else Full(Loads(req.payload))
  }

  lemma NewRowFits(db: Db, hist: History, grid: Grid, enc: Encodings, req: CommitRequest, now: Time)
    requires Agrees(db, hist, grid) && OnGrid(enc, grid) && ValidEncodings(enc)
    requires ExpectedHolds(RevsOf(hist, req.key), req)
    ensures RowFits(RevsOf(hist, req.key), enc, GridOf(grid, req.key.stream), req,
                    NewRow(enc, HeadOf(db.heads, req.key), req, now), now)
  {
    hide Encode, LogAgrees;
  }

  /** Reading the appended row back gives its full document, or its patch applied
      to the previous document. */
  lemma AppendDecodes(log: Log, hist: History, grid: Grid, enc: Encodings, req: CommitRequest, row: Row, now: Time)
    requires LogAgrees(log, hist, grid) && OnGrid(enc, grid) && ValidEncodings(enc)
    requires ExpectedHolds(RevsOf(hist, req.key), req)
    requires RowFits(RevsOf(hist, req.key), enc, GridOf(grid, req.key.stream), req, row, now)
    ensures var n, log' := |RevsOf(hist, req.key)|, log[TargetKey(req) := row];
      && Gridded(log', req.key, n + 1, GridOf(grid, req.key.stream))
      && Decoded(log', enc, req.key, n) == Ok(FullFold(log', req.key, n))
      && FullFold(log', req.key, n)
         == Accumulate(if n == 0 then map[] else hist[req.key][n - 1].doc, row)
  {
    hide Encode, Decoded, FullFold;
    var key, revs, g := req.key, RevsOf(hist, req.key), GridOf(grid, req.key.stream);
    var n, log' := |revs|, log[TargetKey(req) := row];
    assert TargetKey(req) == RowKey(key, n);
    if n > 0 {
      assert AggregateAgrees(log, key, revs, g);
      assert RevisionAgrees(log, key, n - 1, revs[n - 1]);
      FoldFrame(log, RowKey(key, n), row, key, n - 1);
      EncodeHeader(g, Loads(req.payload), revs[n - 1].doc, n - 1);
    } else {
      assert Gridded(log, key, 0, g);
    }
    GridExtends(log, key, n, g, row);
    DecodedOnGrid(log', enc, grid, key, n + 1, n);
    FoldStep(log', key, n);
    if n == 0 { FoldBeforeFirst(log', key); }
  }

  /** The document read back is the request's exactly when it is reproducible. */
  lemma ReadBackIsRequestIffReproducible(
      revs: seq<Revision>, enc: Encodings, grid: nat, req: CommitRequest, row: Row, now: Time)
    requires ValidEncodings(enc) && RowFits(revs, enc, grid, req, row, now)
    ensures var doc := Accumulate(if revs == [] then map[] else revs[|revs| - 1].doc, row);
      CanonicalBytes(doc) == req.payload <==> Reproducible(enc, revs, req)
  {
    hide HiddenChange, Encode;
    if StoredAsPatch(enc, revs, req) {
      CodecExactIffNoHiddenChange(grid, Loads(req.payload), revs[|revs| - 1].doc, |revs| - 1);
    }
  }

  /** Appending a row does not disturb what was committed before it. */
  lemma AppendKeepsRevision(log: Log, rk: RowKey, row: Row, key: Key, r: int, rev: Revision)
    requires RevisionAgrees(log, key, r, rev) && (key != rk.key || r < rk.rev)
    ensures RevisionAgrees(log[rk := row], key, r, rev)
  {
    FoldFrame(log, rk, row, key, r);
  }

  lemma AppendKeepsAggregate(log: Log, rk: RowKey, row: Row, key: Key, revs: seq<Revision>, grid: nat)
    requires AggregateAgrees(log, key, revs, grid) && key != rk.key
    ensures AggregateAgrees(log[rk := row], key, revs, grid)
  {
    GridFrame(log, rk, row, key, |revs|, grid);
    forall r | 0 <= r < |revs| ensures RevisionAgrees(log[rk := row], key, r, revs[r]) {
      assert RevisionAgrees(log, key, r, revs[r]);
      AppendKeepsRevision(log, rk, row, key, r, revs[r]);
    }
  }

  /** Appending a row whose fold is the new revision's document extends the history. */
  lemma AppendExtends(log: Log, hist: History, grid: Grid, key: Key, rev: Revision, row: Row)
    requires LogAgrees(log, hist, grid)
    requires var n := |RevsOf(hist, key)|;
      && Gridded(log[RowKey(key, n) := row], key, n + 1, GridOf(grid, key.stream))
      && RevisionAgrees(log[RowKey(key, n) := row], key, n, rev)
    ensures LogAgrees(log[RowKey(key, |RevsOf(hist, key)|) := row], hist[key := RevsOf(hist, key) + [rev]], grid)
  {
    var revs := RevsOf(hist, key);
    var rk, hist' := RowKey(key, |revs|), hist[key := revs + [rev]];
    var log' := log[rk := row];
    forall k | k in hist' ensures AggregateAgrees(log', k, hist'[k], GridOf(grid, k.stream)) {
      if k != key {
        AppendKeepsAggregate(log, rk, row, k, hist[k], GridOf(grid, k.stream));
      } else {
        forall r | 0 <= r < |hist'[k]| ensures RevisionAgrees(log', k, r, hist'[k][r]) {
          if r < |revs| {
            assert AggregateAgrees(log, k, revs, GridOf(grid, k.stream));
            assert RevisionAgrees(log, k, r, revs[r]);
            AppendKeepsRevision(log, rk, row, k, r, revs[r]);
          }
        }
      }
    }
    forall r: RowKey ensures r in log' <==> 0 <= r.rev < |RevsOf(hist', r.key)| {
      assert r in log <==> 0 <= r.rev < |RevsOf(hist, r.key)|;
    }
  }

  lemma HeadsExtend(heads: Heads, hist: History, key: Key, rev: Revision)
    requires HeadsAgree(heads, hist)
    ensures HeadsAgree(heads[key := ProjectedHead(key, |RevsOf(hist, key)|, rev)],
                       hist[key := RevsOf(hist, key) + [rev]])
  {
  }

  /** The append branch of a commit, on agreeing tables. */
  lemma AppendFollowsHistory(db: Db, hist: History, grid: Grid, enc: Encodings, req: CommitRequest, now: Time)
    requires Agrees(db, hist, grid) && OnGrid(enc, grid) && ValidEncodings(enc) && Planned(req)
    requires ExpectedHolds(RevsOf(hist, req.key), req)
    ensures var revs := RevsOf(hist, req.key);
      var outcome := AppendRow(db, enc, HeadOf(db.heads, req.key), req, now);
      if !RowAllowed(req) then outcome == Err(StoreError)
      else if !Reproducible(enc, revs, req) then outcome == Err(EncodingError)
      else
        match InsertIntents(db.intents, req.intents, now)
        case Err(_) => outcome == Err(StoreError)
        case Ok(intents) =>
          && outcome.Ok?
          && Agrees(outcome.value, hist[req.key := revs + [RevisionOf(req, now)]], grid)
          && outcome.value.intents == intents
          && outcome.value.ledger == RecordFingerprint(db.ledger, req, now)
          && outcome.value.log == db.log[TargetKey(req) := NewRow(enc, HeadOf(db.heads, req.key), req, now)]
  {
    hide Encode, Decoded, FullFold, Gridded, AggregateAgrees, NewRow, InsertIntents, LogAgrees, HeadsAgree;
    var key, revs, rk, g := req.key, RevsOf(hist, req.key), TargetKey(req), GridOf(grid, req.key.stream);
    var row := NewRow(enc, HeadOf(db.heads, key), req, now);
    assert rk == RowKey(key, |revs|);
    TablesAt(db, hist, grid, key, |revs|);
    NewRowFits(db, hist, grid, enc, req, now);
    AppendDecodes(db.log, hist, grid, enc, req, row, now);
    ReadBackIsRequestIffReproducible(revs, enc, g, req, row, now);
    IntentErrors(db.intents, req.intents, now);
    if Reproducible(enc, revs, req) {
      assert RevisionAgrees(db.log[rk := row], key, |revs|, RevisionOf(req, now));
      AppendExtends(db.log, hist, grid, key, RevisionOf(req, now), row);
      HeadsExtend(db.heads, hist, key, RevisionOf(req, now));
      assert HeadFromRow(rk, row, Loads(req.payload)) == ProjectedHead(key, |revs|, RevisionOf(req, now));
    }
  }

  /** What the tables hold for one aggregate: its tip as head, and a row exactly
      for each committed revision. */
  lemma TablesAt(db: Db, hist: History, grid: Grid, key: Key, r: int)
    requires Agrees(db, hist, grid)
    ensures var revs := RevsOf(hist, key);
      && HeadOf(db.heads, key)
         == (if revs == [] then None else Some(ProjectedHead(key, |revs| - 1, revs[|revs| - 1])))
      && (RowKey(key, r) in db.log <==> 0 <= r < |revs|)
      && (0 <= r < |revs| ==> RowMatches(db.log[RowKey(key, r)], revs[r]))
  {
    hide FullFold, Gridded;
    if 0 <= r < |RevsOf(hist, key)| {
      assert AggregateAgrees(db.log, key, hist[key], GridOf(grid, key.stream));
      assert RevisionAgrees(db.log, key, r, hist[key][r]);
    }
    assert RowKey(key, r) in db.log <==> 0 <= RowKey(key, r).rev < |RevsOf(hist, key)|;
  }

  /** Replay, refusal and append are decided as the history decides them, and a
      replay finds the head already there. */
  lemma DecisionFollowsHistory(db: Db, hist: History, grid: Grid, enc: Encodings, req: CommitRequest)
    requires Agrees(db, hist, grid) && ValidEncodings(enc)
    ensures var revs := RevsOf(hist, req.key);
      var decision := Decide(HeadOf(db.heads, req.key), RowOf(db.log, TargetKey(req)), req);
      if 0 <= Target(req) < |revs| then
        if SameRevision(revs[Target(req)], req)
        then decision.Replay? && RepairHead(db, enc, TargetKey(req), decision.row) == Ok(db)
        else decision == Refuse
      else decision == if ExpectedHolds(revs, req) then Append(HeadOf(db.heads, req.key)) else Refuse
  {
    hide Agrees, Decoded;
    TablesAt(db, hist, grid, req.key, Target(req));
  }

  /** A commit on agreeing tables does what the history says: it replays without
      any effect, fails with exactly the history's error, or appends, and then
      the tables agree with the extended history. */
  lemma CommitOneFollowsHistory(db: Db, hist: History, grid: Grid, enc: Encodings, req: CommitRequest, now: Time)
    requires Agrees(db, hist, grid) && OnGrid(enc, grid) && ValidEncodings(enc) && Planned(req)
    ensures match Judge(hist, enc, db.intents, req, now)
      case Replayed =>
        CommitOne(db, enc, req, now) == Ok(Committed(db, CommitResult(req.key, Target(req), now, true)))
      case Rejected(e) => CommitOne(db, enc, req, now) == Err(e)
      case Accepted(rev) =>
        && CommitOne(db, enc, req, now).Ok?
        && var c := CommitOne(db, enc, req, now).value;
        && c.result == CommitResult(req.key, |RevsOf(hist, req.key)|, now, false)
        && Agrees(c.db, hist[req.key := RevsOf(hist, req.key) + [rev]], grid)
        && InsertIntents(db.intents, req.intents, now) == Ok(c.db.intents)
        && c.db.ledger == RecordFingerprint(db.ledger, req, now)
        && c.db.log == db.log[TargetKey(req) := NewRow(enc, HeadOf(db.heads, req.key), req, now)]
  {
    hide NewRow, InsertIntents, AppendRow, Reproducible, RepairHead, Agrees, OnGrid, Decide;
    DecisionFollowsHistory(db, hist, grid, enc, req);
    if !(0 <= Target(req) < |RevsOf(hist, req.key)|) && ExpectedHolds(RevsOf(hist, req.key), req) {
      AppendFollowsHistory(db, hist, grid, enc, req, now);
    }
  }

  /** A correctly based, well-formed request with fresh intents is refused by the
      decode check exactly when its bytes are not canonical or it would be a patch
      that hides a change from Python `==`. */
  lemma ValidCommitRefusedIffHidden(db: Db, hist: History, grid: Grid, enc: Encodings, req: CommitRequest, now: Time)
    requires Agrees(db, hist, grid) && OnGrid(enc, grid) && ValidEncodings(enc) && Planned(req)
    requires ExpectedHolds(RevsOf(hist, req.key), req) && RowAllowed(req)
    requires InsertIntents(db.intents, req.intents, now).Ok?
    ensures var revs := RevsOf(hist, req.key);
      var refused := !req.payload.Canonical?
        || (StoredAsPatch(enc, revs, req) && HiddenChange(revs[|revs| - 1].doc, Loads(req.payload)));
      && (refused <==> CommitOne(db, enc, req, now) == Err(EncodingError))
      && (!refused <==> CommitOne(db, enc, req, now).Ok?)
  {
    hide Agrees, OnGrid, CommitOne, InsertIntents, RowAllowed, HiddenChange, StoredAsPatch, NewRow;
    CommitOneFollowsHistory(db, hist, grid, enc, req, now);
  }

  // -------------------------------------------------------- what is refused

  /** No queue is empty, and no intent is there already or asked for twice. */
  predicate Insertable(intents: Intents, irs: seq<IntentRequest>) {
    && (forall i :: 0 <= i < |irs| ==> irs[i].queue != "" && IntentKey(irs[i].sub, irs[i].rid) !in intents)
    && (forall i, j :: 0 <= i < j < |irs| ==>
          IntentKey(irs[i].sub, irs[i].rid) != IntentKey(irs[j].sub, irs[j].rid))
  }

  predicate AsksFor(irs: seq<IntentRequest>, ik: IntentKey) {
    exists i :: 0 <= i < |irs| && ik == IntentKey(irs[i].sub, irs[i].rid)
  }

  lemma AsksForNext(irs: seq<IntentRequest>, ik: IntentKey)
    requires irs != []
    ensures var n := |irs| - 1;
      AsksFor(irs, ik) <==> AsksFor(irs[..n], ik) || ik == IntentKey(irs[n].sub, irs[n].rid)
  {
    var n := |irs| - 1;
    if i :| 0 <= i < n && ik == IntentKey(irs[..n][i].sub, irs[..n][i].rid) { assert irs[i] == irs[..n][i]; }
    if i :| 0 <= i < |irs| && ik == IntentKey(irs[i].sub, irs[i].rid) {
      if i < n { assert irs[..n][i] == irs[i]; }
    }
  }

  lemma InsertableNext(intents: Intents, irs: seq<IntentRequest>)
    requires irs != []
    ensures var n := |irs| - 1;
      var ik := IntentKey(irs[n].sub, irs[n].rid);
      Insertable(intents, irs) <==>
        Insertable(intents, irs[..n]) && irs[n].queue != "" && ik !in intents && !AsksFor(irs[..n], ik)
  {
    var n := |irs| - 1;
    var front := irs[..n];
    assert forall i :: 0 <= i < n ==> front[i] == irs[i];
  }

  /** The intents of a request are inserted exactly when each can be, and then they
      are what is new. */
  lemma {:induction false} InsertsIffInsertable(intents: Intents, irs: seq<IntentRequest>, now: Time)
    ensures InsertIntents(intents, irs, now).Ok? <==> Insertable(intents, irs)
    ensures InsertIntents(intents, irs, now).Ok? ==>
      forall ik :: ik in InsertIntents(intents, irs, now).value <==> ik in intents || AsksFor(irs, ik)
    decreases |irs|
  {
    if irs != [] {
      hide Insertable, AsksFor;
      InsertsIffInsertable(intents, irs[..|irs| - 1], now);
      InsertableNext(intents, irs);
      forall ik { AsksForNext(irs, ik); }
    }
  }

  /** The new revision breaks a table constraint. */
  predicate Malformed(revs: seq<Revision>, req: CommitRequest) {
    req.schema < 1 || req.key.stream == "" || (revs == []) != (req.kind == Create)
  }

  /** Which correctly based requests the tables refuse: any that is malformed, and,
      once its bytes read back, any whose intents cannot all be inserted.  Every
      other one commits. */
  lemma RefusedByConstraintsIff(db: Db, hist: History, grid: Grid, enc: Encodings, req: CommitRequest, now: Time)
    requires Agrees(db, hist, grid) && OnGrid(enc, grid) && ValidEncodings(enc) && Planned(req)
    requires ExpectedHolds(RevsOf(hist, req.key), req)
    ensures Malformed(RevsOf(hist, req.key), req) ==> CommitOne(db, enc, req, now) == Err(StoreError)
    ensures !Malformed(RevsOf(hist, req.key), req) && CommitOne(db, enc, req, now) != Err(EncodingError) ==>
      if Insertable(db.intents, req.intents) then CommitOne(db, enc, req, now).Ok?
      else CommitOne(db, enc, req, now) == Err(StoreError)
  {
    hide Agrees, OnGrid, CommitOne, InsertIntents, Insertable, NewRow, Reproducible, SameRevision;
    CommitOneFollowsHistory(db, hist, grid, enc, req, now);
    InsertsIffInsertable(db.intents, req.intents, now);
  }
}
