/** The fingerprint ledger over whole runs. */
module RunLedger {
  import opened Tables
  import opened LogReads
  import opened Commits
  import opened Agreement
  import opened HeadRepair
  import opened Runs

  /** Entries already there stay as they were first written. */
  ghost predicate LedgerKept(before: Ledger, after: Ledger) {
    forall k :: k in before ==> k in after && after[k] == before[k]
  }

  /** Every committed revision's schema version has a fingerprint on record. */
  ghost predicate Fingerprinted(hist: History, ledger: Ledger) {
    forall key, r :: 0 <= r < |RevsOf(hist, key)| ==> OnRecord(ledger, key, RevsOf(hist, key)[r])
  }

  predicate OnRecord(ledger: Ledger, key: Key, rev: Revision) {
    (key.stream, rev.schema) in ledger
  }

  lemma OneRecordsFingerprint(db: Db, enc: Encodings, req: CommitRequest, now: Time)
    requires ValidEncodings(enc) && CommitOne(db, enc, req, now).Ok?
    ensures var c := CommitOne(db, enc, req, now).value;
      && LedgerKept(db.ledger, c.db.ledger)
      && (!c.result.replayed ==> (req.key.stream, req.schema) in c.db.ledger)
      && ((req.key.stream, req.schema) !in db.ledger && !c.result.replayed ==>
            c.db.ledger[(req.key.stream, req.schema)] == Fingerprint(req.fingerprint, now))
  {
    hide Decoded, NewRow, InsertIntents, Identical, RowAllowed;
  }

  lemma {:induction false} BatchRecordsFingerprints(
      db: Db, hist: History, enc: Encodings, reqs: seq<CommitRequest>, now: Time)
    requires ValidEncodings(enc) && CommitAll(db, enc, reqs, now).Ok? && Fingerprinted(hist, db.ledger)
    ensures var b := CommitAll(db, enc, reqs, now).value;
      && |b.results| == |reqs|
      && LedgerKept(db.ledger, b.db.ledger) && Fingerprinted(Record(hist, reqs, b.results), b.db.ledger)
    decreases |reqs|
  {
    hide CommitOne, Fingerprinted;
    if reqs != [] {
      var n := |reqs| - 1;
      BatchRecordsFingerprints(db, hist, enc, reqs[..n], now);
      var before, b := CommitAll(db, enc, reqs[..n], now).value, CommitAll(db, enc, reqs, now).value;
      assert b.results[..n] == before.results;
      OneRecordsFingerprint(before.db, enc, reqs[n], now);
      var h := Record(hist, reqs[..n], before.results);
      if b.results[n].replayed {
        LedgerStillCovers(h, before.db.ledger, b.db.ledger);
      } else {
        AppendIsFingerprinted(h, before.db.ledger, b.db.ledger, reqs[n], b.results[n].at);
      }
    }
  }

  lemma LedgerStillCovers(hist: History, before: Ledger, after: Ledger)
    requires Fingerprinted(hist, before) && LedgerKept(before, after)
    ensures Fingerprinted(hist, after)
  {
    forall key, r | 0 <= r < |RevsOf(hist, key)| ensures OnRecord(after, key, RevsOf(hist, key)[r]) {
      assert OnRecord(before, key, RevsOf(hist, key)[r]);
    }
  }

  lemma AppendIsFingerprinted(hist: History, before: Ledger, after: Ledger, req: CommitRequest, at: Time)
    requires Fingerprinted(hist, before) && LedgerKept(before, after) && (req.key.stream, req.schema) in after
    ensures Fingerprinted(hist[req.key := RevsOf(hist, req.key) + [RevisionOf(req, at)]], after)
  {
    var hist' := hist[req.key := RevsOf(hist, req.key) + [RevisionOf(req, at)]];
    forall key, r | 0 <= r < |RevsOf(hist', key)| ensures OnRecord(after, key, RevsOf(hist', key)[r]) {
      if r < |RevsOf(hist, key)| { assert OnRecord(before, key, RevsOf(hist, key)[r]); }
    }
  }

  lemma StepKeepsLedger(w: World, cfg: Config, e: Event)
    requires ValidEncodings(w.enc) && Possible(w, e) && Fingerprinted(w.hist, w.db.ledger)
    ensures LedgerKept(w.db.ledger, Apply(w, cfg, e).db.ledger)
    ensures Fingerprinted(Apply(w, cfg, e).hist, Apply(w, cfg, e).db.ledger)
  {
    hide CommitAll, RebuiltHeads, Fingerprinted, Record;
    if e.CommitBatch? && CommitAll(w.db, w.enc, e.reqs, w.clock).Ok? {
      BatchRecordsFingerprints(w.db, w.hist, w.enc, e.reqs, w.clock);
    }
  }

  /** Along any run the first fingerprint recorded for a schema version stays, and
      no revision is committed without one. */
  lemma {:induction false} EveryRunKeepsLedger(w0: World, cfg: Config, events: seq<Event>, w: World)
    requires Fingerprinted(w0.hist, w0.db.ledger) && Reaches(w0, cfg, events, w)
    ensures LedgerKept(w0.db.ledger, w.db.ledger) && Fingerprinted(w.hist, w.db.ledger)
    decreases |events|
  {
    if events != [] {
      var front, last := events[..|events| - 1], events[|events| - 1];
      var mid :| Reaches(w0, cfg, front, mid) && ValidEncodings(mid.enc) && Possible(mid, last)
        && w == Apply(mid, cfg, last);
      hide Apply, Possible;
      EveryRunKeepsLedger(w0, cfg, front, mid);
      StepKeepsLedger(mid, cfg, last);
    }
  }
}
