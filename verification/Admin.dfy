/** Administration on top of a store: rebuild and verify heads, redrive dead intents. */
module Admin {
  import opened Results
  import opened JsonValues
  import opened DeltaEncoding
  import opened Tables
  import opened LogReads
  import opened Commits
  import Ordering
  import opened Recovery
  import opened HeadRepair
  import opened Outbox
  import opened Store

  class SqlAdmin {
    const store: SqlStore

    constructor (store: SqlStore)
      ensures this.store == store
    {
      this.store := store;
    }

    /** `rebuild_heads`: delete the scope's heads, then write one per emitted
        aggregate.  The result does not depend on `chunk`. */
    method RebuildHeads(scope: Scope, chunk: nat) returns (report: RebuildReport)
      requires chunk >= 1
      modifies store`heads
      ensures store.heads == RebuiltHeads(store.log, old(store.heads), scope)
      ensures report == RebuildReportOf(store.log, old(store.heads), scope)
    {
      hide Emits, RebuildOne, Latest;
      var headKeys := KeysInScope(store.heads, scope);
      store.heads := OutOfScope(store.heads, scope);
      ghost var start := Progress(store.heads, {}, {}, 0, 0);
      var emits := StreamLog(store.log, scope, chunk);
      var emitted: set<Key>, streams: set<string>, rebuilt: nat, mismatches: nat := {}, {}, 0, 0;
      var i := 0;
      assert emits[..0] == [];
      while i < |emits|
        invariant 0 <= i <= |emits|
        invariant Progress(store.heads, emitted, streams, rebuilt, mismatches)
               == RebuildAll(store.log, start, emits[..i])
      {
        assert emits[..i + 1][..i] == emits[..i];
        ghost var before := Progress(store.heads, emitted, streams, rebuilt, mismatches);
        var e := emits[i];
        emitted, streams := emitted + {e.key}, streams + {e.key.stream};
        var last := SelectLatest(store.log, e.key);
        if last.None? || DigestOf(CanonicalBytes(e.doc)) != store.log[RowKey(e.key, last.value)].digest {
          mismatches := mismatches + 1;
        } else {
          var rk := RowKey(e.key, last.value);
          store.heads := store.heads[e.key := HeadFromRow(rk, store.log[rk], e.doc)];
          rebuilt := rebuilt + 1;
        }
        OneEmit(store.log, before, e, last);
        i := i + 1;
      }
      assert emits[..i] == emits;
      report := RebuildReport(streams, rebuilt, |headKeys - emitted|, mismatches);
    }

    /** `verify`: every row must decode to its digest, every aggregate's head must
        carry its fold's digest.  The report does not depend on `chunk`. */
    method Verify(scope: Scope, chunk: nat) returns (report: VerifyReport)
      requires chunk >= 1
      ensures report == VerifyReportOf(store.log, store.heads, scope)
    {
      hide Scan, RowSound, Emits;
      ghost var scan := Scan(store.log, scope);
      ghost var p := 0;
      var after: Option<RowKey> := None;
      var checked: nat, mismatches: nat := 0, 0;
      assert scan[..0] == [];
      while true
        invariant Ordering.CursorAt(scan, p, after)
        invariant checked == p && mismatches == BadRows(store.log, scan[..p])
        decreases |scan| - p
      {
        var rows := SelectLogChunk(store.log, scope, chunk, after, p);
        if rows == [] { break; }
        after := Some(rows[|rows| - 1]);
        var i := 0;
        while i < |rows|
          invariant 0 <= i <= |rows|
          invariant checked == p + i && mismatches == BadRows(store.log, scan[..p + i])
        {
          ScannedIsLogged(store.log, scope, p + i);
          assert scan[..p + i + 1][..p + i] == scan[..p + i];
          checked := checked + 1;
          var doc := DecodeOwn(store.log, rows[i]);
          RowVerdict(store.log, rows[i], doc);
          if doc.Err? || DigestOf(CanonicalBytes(doc.value)) != store.log[rows[i]].digest {
            mismatches := mismatches + 1;
          }
          i := i + 1;
        }
        p := p + |rows|;
      }
      assert scan[..p] == scan;
      ScanCounts(store.log, scope);
      var emits := StreamLog(store.log, scope, chunk);
      var badHeads := CountBadHeads(emits);
      report := VerifyReport(set rk | rk in RowsIn(store.log, scope) :: rk.key.stream, checked, mismatches + badHeads);
    }

    method CountBadHeads(emits: seq<Emit>) returns (n: nat)
      ensures n == BadHeads(store.heads, emits)
    {
      n := 0;
      var i := 0;
      assert emits[..0] == [];
      while i < |emits|
        invariant 0 <= i <= |emits| && n == BadHeads(store.heads, emits[..i])
      {
        assert emits[..i + 1][..i] == emits[..i];
        if !HeadSound(store.heads, emits[i]) { n := n + 1; }
        i := i + 1;
      }
      assert emits[..i] == emits;
    }

    /** `redrive`: dead intents of one subscription become pending again. */
    method Redrive(sub: string, now: Time) returns (n: nat)
      modifies store`intents
      ensures store.intents == Redriven(old(store.intents), sub, now)
      ensures n == |set ik | ik in old(store.intents) && ik.sub == sub && old(store.intents)[ik].status == Dead|
    {
      var dead := set ik | ik in store.intents && Redrivable(ik, store.intents[ik], sub);
      assert dead == set ik | ik in store.intents && ik.sub == sub && store.intents[ik].status == Dead;
      n := |dead|;
      store.intents := Redriven(store.intents, sub, now);
    }
  }

  /** `_decode_row`: decode one row with the row's own `every`. */
  method DecodeOwn(log: Log, rk: RowKey) returns (r: Result<Doc>)
    requires rk in log
    ensures r == DecodedByRow(log, rk.key, rk.rev)
  {
    hide DecodedWindow, Window;
    match log[rk].payload
    case Full(d) => r := Ok(d);
    case Delta(p) =>
      var lo := Max(0, rk.rev - SpanOf(p));
      WindowRows(log, rk.key, lo, rk.rev);
      r := DecodeWindow(Window(log, rk.key, lo, rk.rev), rk.rev);
  }

  lemma RowVerdict(log: Log, rk: RowKey, doc: Result<Doc>)
    requires rk in log && doc == DecodedByRow(log, rk.key, rk.rev)
    ensures RowSound(log, rk) <==> doc.Ok? && DigestOf(CanonicalBytes(doc.value)) == log[rk].digest
  {
  }

  lemma OneEmit(log: Log, p: Progress, e: Emit, last: Option<int>)
    requires last == Latest(log, e.key)
    ensures RebuildOne(log, p, e)
      == var seen := p.(emitted := p.emitted + {e.key}, streams := p.streams + {e.key.stream});
         if last.None? || DigestOf(CanonicalBytes(e.doc)) != log[RowKey(e.key, last.value)].digest
         then seen.(mismatches := p.mismatches + 1)
         else seen.(heads := p.heads[e.key :=
                      HeadFromRow(RowKey(e.key, last.value), log[RowKey(e.key, last.value)], e.doc)],
                    rebuilt := p.rebuilt + 1)
  {
  }

  lemma ScanCounts(log: Log, scope: Scope)
    ensures |Scan(log, scope)| == |RowsIn(log, scope)|
  {
    Ordering.RowKeyOrder();
    Ordering.SortedCounts(RowsIn(log, scope), Ordering.RowKeyLess);
  }
}
