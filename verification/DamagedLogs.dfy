/** What rebuild and verify do on any log, damaged or not, and with any heads. */
module DamagedLogs {
  import opened Results
  import opened JsonValues
  import opened Tables
  import opened LogReads
  import opened Commits
  import opened Ordering
  import opened Agreement
  import opened Recovery
  import opened HeadRepair

  // ------------------------------------------------------------------ counting

  function BadAmong(log: Log, rows: seq<RowKey>): set<RowKey> {
    set rk | rk in rows && rk in log && !RowSound(log, rk)
  }

  lemma {:induction false} BadRowsAreCounted(log: Log, rows: seq<RowKey>)
    requires forall i, j :: 0 <= i < j < |rows| ==> rows[i] != rows[j]
    ensures BadRows(log, rows) == |BadAmong(log, rows)|
  {
    hide RowSound;
    if rows == [] {
      assert BadAmong(log, rows) == {};
    } else {
      var front, last := rows[..|rows| - 1], rows[|rows| - 1];
      assert rows == front + [last] && last !in front;
      BadRowsAreCounted(log, front);
      assert BadAmong(log, rows)
          == BadAmong(log, front) + (if last in log && !RowSound(log, last) then {last} else {});
    }
  }

  function UnsoundIn(heads: Heads, emits: seq<Emit>): set<Key> {
    set a | 0 <= a < |emits| && !HeadSound(heads, emits[a]) :: emits[a].key
  }

  lemma {:induction false} BadHeadsAreCounted(heads: Heads, emits: seq<Emit>)
    requires KeysAscend(emits)
    ensures BadHeads(heads, emits) == |UnsoundIn(heads, emits)|
  {
    hide HeadSound, KeysAscend;
    if emits == [] {
      assert UnsoundIn(heads, emits) == {};
    } else {
      var n := |emits| - 1;
      EmittedNext(emits, emits[n].key);
      BadHeadsAreCounted(heads, emits[..n]);
      var before := UnsoundIn(heads, emits[..n]);
      assert forall a :: 0 <= a < n ==> emits[..n][a] == emits[a];
      assert emits[n].key !in before;
      if HeadSound(heads, emits[n]) {
        assert UnsoundIn(heads, emits) == before;
      } else {
        assert UnsoundIn(heads, emits) == before + {emits[n].key};
      }
    }
  }

  // -------------------------------------------------------------------- verify

  /** Verify's answer on any log whose revisions are not negative, and any heads: it
      checks every row of the stream, or of all; a mismatch is a row that does not
      decode within its own window, or decodes to a document without its digest, or
      an aggregate whose head is missing or lacks the digest of the fold of all its
      rows. */
  lemma VerifyOnAnyLog(log: Log, heads: Heads, scope: Scope)
    requires NonNegative(log)
    ensures var report := VerifyReportOf(log, heads, scope);
      && report.checked == |set rk | rk in log && (scope.None? || scope.value == rk.key.stream)|
      && report.streams == (set rk | rk in log && (scope.None? || scope.value == rk.key.stream) :: rk.key.stream)
      && report.mismatches
         == |set rk | rk in log && (scope.None? || scope.value == rk.key.stream)
                      && !(DecodedByRow(log, rk.key, rk.rev).Ok?
                           && DigestOf(CanonicalBytes(DecodedByRow(log, rk.key, rk.rev).value)) == log[rk].digest)|
          + |set rk | rk in log && (scope.None? || scope.value == rk.key.stream) && IsLatest(log, rk.key, rk.rev)
                      && !(rk.key in heads
                           && heads[rk.key].digest == DigestOf(CanonicalBytes(FullFold(log, rk.key, rk.rev))))
                :: rk.key|
  {
    hide DecodedByRow, FullFold, BadRows, BadHeads, Scan, Emits, IsLatest;
    assert RowsIn(log, scope) == set rk | rk in log && (scope.None? || scope.value == rk.key.stream);
    ScanHasNoRepeats(log, scope);
    BadRowsAreCounted(log, Scan(log, scope));
    BadScanned(log, scope);
    EmitsEachAggregateOnce(log, scope);
    BadHeadsAreCounted(heads, Emits(log, scope));
    UnsoundEmitted(log, heads, scope);
  }

  lemma ScanHasNoRepeats(log: Log, scope: Scope)
    ensures forall i, j :: 0 <= i < j < |Scan(log, scope)| ==> Scan(log, scope)[i] != Scan(log, scope)[j]
  {
    hide Scan;
    forall i, j | 0 <= i < j < |Scan(log, scope)| ensures Scan(log, scope)[i] != Scan(log, scope)[j] {
      ScanAscends(log, scope, i, j);
      RowKeyOrder();
    }
  }

  lemma BadScanned(log: Log, scope: Scope)
    ensures BadAmong(log, Scan(log, scope))
      == set rk | rk in log && (scope.None? || scope.value == rk.key.stream)
                  && !(DecodedByRow(log, rk.key, rk.rev).Ok?
                       && DigestOf(CanonicalBytes(DecodedByRow(log, rk.key, rk.rev).value)) == log[rk].digest)
  {
    hide DecodedByRow, Scan;
    var scan := Scan(log, scope);
    ScanIsOrdered(log, scope);
    forall rk ensures rk in BadAmong(log, scan) <==> rk in log && InScope(rk.key, scope) && !RowSound(log, rk) {
      if rk in log && InScope(rk.key, scope) && !RowSound(log, rk) {
        var i := LoggedIsScanned(log, scope, rk);
        assert scan[i] in BadAmong(log, scan);
      }
    }
  }

  lemma UnsoundEmitted(log: Log, heads: Heads, scope: Scope)
    requires NonNegative(log)
    ensures UnsoundIn(heads, Emits(log, scope))
      == set rk | rk in log && (scope.None? || scope.value == rk.key.stream) && IsLatest(log, rk.key, rk.rev)
                  && !(rk.key in heads
                       && heads[rk.key].digest == DigestOf(CanonicalBytes(FullFold(log, rk.key, rk.rev)))) :: rk.key
  {
    hide FullFold, Emits, KeysAscend;
    var emits := Emits(log, scope);
    EmitsEachAggregateOnce(log, scope);
    var wanted := set rk | rk in log && (scope.None? || scope.value == rk.key.stream) && IsLatest(log, rk.key, rk.rev)
      && !(rk.key in heads
           && heads[rk.key].digest == DigestOf(CanonicalBytes(FullFold(log, rk.key, rk.rev)))) :: rk.key;
    forall key | key in UnsoundIn(heads, emits) ensures key in wanted {
      var a :| 0 <= a < |emits| && !HeadSound(heads, emits[a]) && emits[a].key == key;
      var r :| IsLatest(log, key, r) && emits[a].doc == FullFold(log, key, r);
      assert RowKey(key, r).key in wanted;
    }
    forall key | key in wanted ensures key in UnsoundIn(heads, emits) {
      var rk :| rk in log && InScope(rk.key, scope) && IsLatest(log, rk.key, rk.rev) && rk.key == key
        && !(rk.key in heads && heads[rk.key].digest == DigestOf(CanonicalBytes(FullFold(log, rk.key, rk.rev))));
      var a := EmitOf(log, scope, rk);
      assert emits[a].key in UnsoundIn(heads, emits);
    }
  }

  /** The emit of an aggregate carries the fold up to its last row. */
  lemma EmitOf(log: Log, scope: Scope, rk: RowKey) returns (a: nat)
    requires NonNegative(log) && rk in log && InScope(rk.key, scope) && IsLatest(log, rk.key, rk.rev)
    ensures var emits := Emits(log, scope);
      a < |emits| && emits[a].key == rk.key && emits[a].doc == FullFold(log, rk.key, rk.rev)
  {
    hide FullFold, Emits, KeysAscend;
    EmitsEachAggregateOnce(log, scope);
    var emits := Emits(log, scope);
    a :| 0 <= a < |emits| && emits[a].key == rk.key;
    assert EmitsLatest(log, emits[a]);
    var r :| IsLatest(log, rk.key, r) && emits[a].doc == FullFold(log, rk.key, r);
    assert RowKey(rk.key, r) in log && RowKey(rk.key, rk.rev) in log;
  }

  // ------------------------------------------------------------------- rebuild

  /** The emit has the digest of its aggregate's last row. */
  ghost predicate Matches(log: Log, e: Emit) {
    Latest(log, e.key).Some?
    && DigestOf(CanonicalBytes(e.doc)) == log[RowKey(e.key, Latest(log, e.key).value)].digest
  }

  ghost function MatchedIn(log: Log, emits: seq<Emit>, matched: bool): set<Key> {
    set a | 0 <= a < |emits| && Matches(log, emits[a]) == matched :: emits[a].key
  }

  ghost function HeadFor(log: Log, e: Emit): Head
    requires Matches(log, e)
  {
    var rk := RowKey(e.key, Latest(log, e.key).value);
    HeadFromRow(rk, log[rk], e.doc)
  }

  ghost predicate Rebuilt(log: Log, start: Heads, emits: seq<Emit>, p: Progress) {
    && p.rebuilt == |MatchedIn(log, emits, true)| && p.mismatches == |MatchedIn(log, emits, false)|
    && (forall key :: key in p.emitted <==> Emitted(emits, key))
    && p.streams == (set key | key in p.emitted :: key.stream)
    && HeadsLeft(log, start, emits, p.heads)
  }

  ghost predicate HeadsLeft(log: Log, start: Heads, emits: seq<Emit>, heads: Heads) {
    && (forall a :: 0 <= a < |emits| ==> HeadLeft(log, start, emits[a], heads))
    && (forall key :: !Emitted(emits, key) ==> HeadOf(heads, key) == HeadOf(start, key))
  }

  ghost predicate HeadLeft(log: Log, start: Heads, e: Emit, heads: Heads) {
    HeadOf(heads, e.key) == if Matches(log, e) then Some(HeadFor(log, e)) else HeadOf(start, e.key)
  }

  lemma {:induction false} RebuildAnyEmits(log: Log, start: Heads, emits: seq<Emit>)
    requires KeysAscend(emits)
    ensures Rebuilt(log, start, emits, RebuildAll(log, Progress(start, {}, {}, 0, 0), emits))
    decreases |emits|
  {
    hide KeysAscend, Matches, HeadFor, Emitted, RebuildOne;
    if emits == [] {
      assert MatchedIn(log, emits, true) == {} && MatchedIn(log, emits, false) == {};
      forall key ensures !Emitted(emits, key) { NothingEmitted(key); }
    } else {
      var n := |emits| - 1;
      var front, last := emits[..n], emits[n];
      EmittedNext(emits, last.key);
      RebuildAnyEmits(log, start, front);
      var p := RebuildAll(log, Progress(start, {}, {}, 0, 0), front);
      forall key ensures Emitted(emits, key) <==> key == last.key || Emitted(front, key) { EmittedNext(emits, key); }
      RebuildNext(log, start, emits, p);
    }
  }

  lemma RebuildNext(log: Log, start: Heads, emits: seq<Emit>, p: Progress)
    requires emits != [] && Rebuilt(log, start, emits[..|emits| - 1], p)
    requires !Emitted(emits[..|emits| - 1], emits[|emits| - 1].key)
    requires forall key :: Emitted(emits, key) <==>
      key == emits[|emits| - 1].key || Emitted(emits[..|emits| - 1], key)
    ensures Rebuilt(log, start, emits, RebuildOne(log, p, emits[|emits| - 1]))
  {
    hide *;
    var n := |emits| - 1;
    var front, last := emits[..n], emits[n];
    var q := RebuildOne(log, p, last);
    RebuildStep(log, p, last);
    RebuiltSplit(log, start, front, p);
    RebuiltSplit(log, start, emits, q);
    MatchedNext(log, emits, true);
    MatchedNext(log, emits, false);
    HeadsNext(log, start, emits, p.heads, q.heads);
    assert q.streams == set key | key in q.emitted :: key.stream;
  }

  lemma RebuiltSplit(log: Log, start: Heads, emits: seq<Emit>, p: Progress)
    ensures Rebuilt(log, start, emits, p) <==>
      && p.rebuilt == |MatchedIn(log, emits, true)| && p.mismatches == |MatchedIn(log, emits, false)|
      && (forall key :: key in p.emitted <==> Emitted(emits, key))
      && p.streams == (set key | key in p.emitted :: key.stream)
      && HeadsLeft(log, start, emits, p.heads)
  {
    hide Emitted, MatchedIn, HeadsLeft;
  }

  lemma HeadsNext(log: Log, start: Heads, emits: seq<Emit>, heads: Heads, after: Heads)
    requires emits != [] && HeadsLeft(log, start, emits[..|emits| - 1], heads)
    requires !Emitted(emits[..|emits| - 1], emits[|emits| - 1].key)
    requires forall key :: Emitted(emits, key) <==>
      key == emits[|emits| - 1].key || Emitted(emits[..|emits| - 1], key)
    requires var last := emits[|emits| - 1];
      after == if Matches(log, last) then heads[last.key := HeadFor(log, last)] else heads
    ensures HeadsLeft(log, start, emits, after)
  {
    hide Matches, HeadFor;
    var n := |emits| - 1;
    var front := emits[..n];
    forall a | 0 <= a < |emits| ensures HeadLeft(log, start, emits[a], after) {
      if a < n {
        assert front[a] == emits[a] && HeadLeft(log, start, front[a], heads) && Emitted(front, front[a].key);
      }
    }
  }

  lemma RebuildStep(log: Log, p: Progress, e: Emit)
    ensures var q := RebuildOne(log, p, e);
      && q.emitted == p.emitted + {e.key} && q.streams == p.streams + {e.key.stream}
      && (Matches(log, e) ==>
            q.rebuilt == p.rebuilt + 1 && q.mismatches == p.mismatches && q.heads == p.heads[e.key := HeadFor(log, e)])
      && (!Matches(log, e) ==>
            q.rebuilt == p.rebuilt && q.mismatches == p.mismatches + 1 && q.heads == p.heads)
  {
    hide Latest;
  }

  lemma MatchedNext(log: Log, emits: seq<Emit>, matched: bool)
    requires emits != [] && !Emitted(emits[..|emits| - 1], emits[|emits| - 1].key)
    ensures var n := |emits| - 1;
      && MatchedIn(log, emits, matched) == MatchedIn(log, emits[..n], matched)
                                          + (if Matches(log, emits[n]) == matched then {emits[n].key} else {})
      && emits[n].key !in MatchedIn(log, emits[..n], matched)
  {
    hide Matches;
    var n := |emits| - 1;
    var front := emits[..n];
    assert forall a :: 0 <= a < n ==> front[a] == emits[a];
    forall key | key in MatchedIn(log, front, matched) ensures key in MatchedIn(log, emits, matched) {
      var a :| 0 <= a < n && Matches(log, front[a]) == matched && front[a].key == key;
      assert emits[a].key in MatchedIn(log, emits, matched);
    }
  }

  /** What a rebuild leaves for an aggregate, on any log whose revisions are not
      negative and from any heads.  Another stream's head is untouched.  Within the
      stream, or everywhere without one, an aggregate has the head of its last row
      with the fold of all its rows, if that fold has the row's digest, and else none. */
  lemma RebuildOnAnyLog(log: Log, heads: Heads, scope: Scope, key: Key)
    requires NonNegative(log)
    ensures var after := RebuiltHeads(log, heads, scope);
      if scope.Some? && scope.value != key.stream then HeadOf(after, key) == HeadOf(heads, key)
      else
        && ((forall r :: RowKey(key, r) !in log) ==> key !in after)
        && (forall r :: IsLatest(log, key, r) ==>
              HeadOf(after, key)
              == if DigestOf(CanonicalBytes(FullFold(log, key, r))) == log[RowKey(key, r)].digest
                 then Some(HeadFromRow(RowKey(key, r), log[RowKey(key, r)], FullFold(log, key, r))) else None)
  {
    hide FullFold, Emits, KeysAscend, RebuildAll, Latest, HeadFor;
    var emits := Emits(log, scope);
    EmitsEachAggregateOnce(log, scope);
    RebuildAnyEmits(log, OutOfScope(heads, scope), emits);
    var p := Rebuilding(log, heads, scope);
    if r :| IsLatest(log, key, r) && InScope(key, scope) {
      var a := EmitOf(log, scope, RowKey(key, r));
      assert HeadLeft(log, OutOfScope(heads, scope), emits[a], p.heads);
      forall q | IsLatest(log, key, q) ensures q == r { assert RowKey(key, q) in log && RowKey(key, r) in log; }
      LatestIs(log, key, r);
      MatchedHead(log, emits[a], r);
    } else {
      if Emitted(emits, key) { EmittedIsLogged(log, scope, key); }
    }
  }

  lemma LatestIs(log: Log, key: Key, r: int)
    requires IsLatest(log, key, r)
    ensures Latest(log, key) == Some(r)
  {
    assert RowKey(key, r) in log;
    var q := Latest(log, key).value;
    assert IsLatest(log, key, q) && RowKey(key, q) in log;
  }

  lemma MatchedHead(log: Log, e: Emit, r: int)
    requires IsLatest(log, e.key, r) && Latest(log, e.key) == Some(r)
    ensures Matches(log, e) <==> DigestOf(CanonicalBytes(e.doc)) == log[RowKey(e.key, r)].digest
    ensures Matches(log, e) ==> HeadFor(log, e) == HeadFromRow(RowKey(e.key, r), log[RowKey(e.key, r)], e.doc)
  {
    hide Latest;
  }

  lemma EmittedIsLogged(log: Log, scope: Scope, key: Key)
    requires NonNegative(log) && Emitted(Emits(log, scope), key)
    ensures (scope.None? || scope.value == key.stream) && exists r :: IsLatest(log, key, r)
  {
    hide FullFold, Emits, KeysAscend;
    EmitsEachAggregateOnce(log, scope);
    var a :| 0 <= a < |Emits(log, scope)| && Emits(log, scope)[a].key == key;
    assert EmitsLatest(log, Emits(log, scope)[a]);
  }

  /** The rebuild's report on any log: how many aggregates of the stream have a fold
      with their last row's digest, how many have not, and how many heads of the
      stream have no row. */
  lemma RebuildReportOnAnyLog(log: Log, heads: Heads, scope: Scope)
    requires NonNegative(log)
    ensures var report := RebuildReportOf(log, heads, scope);
      && report.streams == (set rk | rk in log && (scope.None? || scope.value == rk.key.stream) :: rk.key.stream)
      && report.rebuilt
         == |set rk | rk in log && (scope.None? || scope.value == rk.key.stream) && IsLatest(log, rk.key, rk.rev)
                      && DigestOf(CanonicalBytes(FullFold(log, rk.key, rk.rev))) == log[rk].digest :: rk.key|
      && report.mismatches
         == |set rk | rk in log && (scope.None? || scope.value == rk.key.stream) && IsLatest(log, rk.key, rk.rev)
                      && DigestOf(CanonicalBytes(FullFold(log, rk.key, rk.rev))) != log[rk].digest :: rk.key|
      && report.orphansRemoved
         == |set key | key in heads && (scope.None? || scope.value == key.stream)
                       && (forall rk :: rk in log ==> rk.key != key)|
  {
    hide *;
    var emits, start := Emits(log, scope), OutOfScope(heads, scope);
    var p := Rebuilding(log, heads, scope);
    EmitsEachAggregateOnce(log, scope);
    RebuildAnyEmits(log, start, emits);
    ReportOf(log, heads, scope);
    RebuiltSplit(log, start, emits, p);
    MatchedEmitted(log, scope, true);
    MatchedEmitted(log, scope, false);
    EmittedStreams(log, scope);
    StreamsAndOrphans(log, heads, scope, p.emitted);
  }

  lemma ReportOf(log: Log, heads: Heads, scope: Scope)
    ensures var p := RebuildAll(log, Progress(OutOfScope(heads, scope), {}, {}, 0, 0), Emits(log, scope));
      && Rebuilding(log, heads, scope) == p
      && RebuildReportOf(log, heads, scope)
         == RebuildReport(p.streams, p.rebuilt, |KeysInScope(heads, scope) - p.emitted|, p.mismatches)
  {
    hide RebuildAll, Emits;
  }

  lemma StreamsAndOrphans(log: Log, heads: Heads, scope: Scope, emitted: set<Key>)
    requires forall key :: key in emitted <==>
      (scope.None? || scope.value == key.stream) && exists rk :: rk in log && rk.key == key
    ensures (set key | key in emitted :: key.stream)
      == set rk | rk in log && (scope.None? || scope.value == rk.key.stream) :: rk.key.stream
    ensures KeysInScope(heads, scope) - emitted
      == set key | key in heads && (scope.None? || scope.value == key.stream)
                   && (forall rk :: rk in log ==> rk.key != key)
  {
    EmittedStreamsAre(log, scope, emitted);
    assert forall key :: InScope(key, scope) <==> scope.None? || scope.value == key.stream;
    hide InScope;
    forall key ensures key in KeysInScope(heads, scope) - emitted
      <==> key in heads && (scope.None? || scope.value == key.stream) && (forall rk :: rk in log ==> rk.key != key) {}
  }

  lemma EmittedStreamsAre(log: Log, scope: Scope, emitted: set<Key>)
    requires forall key :: key in emitted <==>
      (scope.None? || scope.value == key.stream) && exists rk :: rk in log && rk.key == key
    ensures (set key | key in emitted :: key.stream)
      == set rk | rk in log && (scope.None? || scope.value == rk.key.stream) :: rk.key.stream
  {
    var streams := set rk | rk in log && (scope.None? || scope.value == rk.key.stream) :: rk.key.stream;
    var given := set key | key in emitted :: key.stream;
    forall s | s in given ensures s in streams {
      var key :| key in emitted && key.stream == s;
      var rk :| rk in log && rk.key == key;
    }
    forall s | s in streams ensures s in given {
      var rk :| rk in log && (scope.None? || scope.value == rk.key.stream) && rk.key.stream == s;
      assert rk.key in emitted;
    }
  }

  /** The emitted keys are those with a row in scope. */
  lemma EmittedStreams(log: Log, scope: Scope)
    requires NonNegative(log)
    ensures forall key :: Emitted(Emits(log, scope), key) <==>
      (scope.None? || scope.value == key.stream) && exists rk :: rk in log && rk.key == key
  {
    hide FullFold, Emits, KeysAscend;
    EmitsEachAggregateOnce(log, scope);
    forall key | Emitted(Emits(log, scope), key)
      ensures (scope.None? || scope.value == key.stream) && exists rk :: rk in log && rk.key == key
    {
      EmittedIsLogged(log, scope, key);
      var r :| IsLatest(log, key, r);
      assert RowKey(key, r).key == key;
    }
  }

  lemma MatchedEmitted(log: Log, scope: Scope, matched: bool)
    requires NonNegative(log)
    ensures matched ==>
      MatchedIn(log, Emits(log, scope), true)
      == set rk | rk in log && (scope.None? || scope.value == rk.key.stream) && IsLatest(log, rk.key, rk.rev)
                  && DigestOf(CanonicalBytes(FullFold(log, rk.key, rk.rev))) == log[rk].digest :: rk.key
    ensures !matched ==>
      MatchedIn(log, Emits(log, scope), false)
      == set rk | rk in log && (scope.None? || scope.value == rk.key.stream) && IsLatest(log, rk.key, rk.rev)
                  && DigestOf(CanonicalBytes(FullFold(log, rk.key, rk.rev))) != log[rk].digest :: rk.key
  {
    hide FullFold, Emits, MatchedIn, IsLatest;
    var made := MatchedIn(log, Emits(log, scope), matched);
    forall key | key in made
      ensures exists rk :: rk in log && InScope(rk.key, scope) && IsLatest(log, rk.key, rk.rev) && rk.key == key
                        && FoldMatches(log, rk) == matched
    {
      var rk := MatchedIsLogged(log, scope, matched, key);
    }
    forall rk | rk in log && InScope(rk.key, scope) && IsLatest(log, rk.key, rk.rev) && FoldMatches(log, rk) == matched
      ensures rk.key in made
    {
      LoggedIsMatched(log, scope, matched, rk);
    }
  }

  /** The fold up to the row has the row's digest. */
  predicate FoldMatches(log: Log, rk: RowKey)
    requires rk in log
  {
    DigestOf(CanonicalBytes(FullFold(log, rk.key, rk.rev))) == log[rk].digest
  }

  lemma MatchedIsLogged(log: Log, scope: Scope, matched: bool, key: Key) returns (rk: RowKey)
    requires NonNegative(log) && key in MatchedIn(log, Emits(log, scope), matched)
    ensures rk in log && rk.key == key && InScope(key, scope) && IsLatest(log, key, rk.rev)
    ensures FoldMatches(log, rk) == matched
  {
    hide FullFold, Emits, KeysAscend, Latest, Matches;
    var emits := Emits(log, scope);
    EmitsEachAggregateOnce(log, scope);
    var a :| 0 <= a < |emits| && Matches(log, emits[a]) == matched && emits[a].key == key;
    var r :| IsLatest(log, key, r) && emits[a].doc == FullFold(log, key, r);
    LatestIs(log, key, r);
    MatchedHead(log, emits[a], r);
    rk := RowKey(key, r);
  }

  lemma LoggedIsMatched(log: Log, scope: Scope, matched: bool, rk: RowKey)
    requires NonNegative(log) && rk in log && InScope(rk.key, scope) && IsLatest(log, rk.key, rk.rev)
    requires FoldMatches(log, rk) == matched
    ensures rk.key in MatchedIn(log, Emits(log, scope), matched)
  {
    hide FullFold, Emits, KeysAscend, Latest, Matches;
    var emits := Emits(log, scope);
    var a := EmitOf(log, scope, rk);
    LatestIs(log, rk.key, rk.rev);
    MatchedHead(log, emits[a], rk.rev);
  }

  // ------------------------------------------------- one stream of a good log

  /** A rebuild of one stream of a good log: each of its aggregates gets exactly its
      tip, its orphans go, and every other stream keeps its heads. */
  lemma RebuildOfStream(log: Log, hist: History, grid: Grid, heads: Heads, stream: string)
    requires LogAgrees(log, hist, grid)
    ensures var after := RebuiltHeads(log, heads, Some(stream));
      && (forall key: Key :: key.stream == stream && key in hist ==>
            hist[key] != []
            && HeadOf(after, key) == Some(ProjectedHead(key, |hist[key]| - 1, hist[key][|hist[key]| - 1])))
      && (forall key: Key :: key.stream == stream && key !in hist ==> key !in after)
      && (forall key: Key :: key.stream != stream ==> HeadOf(after, key) == HeadOf(heads, key))
    ensures RebuildReportOf(log, heads, Some(stream))
      == RebuildReport(if exists key: Key :: key in hist && key.stream == stream then {stream} else {},
                       |set key | key in hist && key.stream == stream|,
                       |set key | key in heads && key.stream == stream && key !in hist|, 0)
    ensures VerifyReportOf(log, heads, Some(stream)).checked == |set rk | rk in log && rk.key.stream == stream|
  {
    hide LogAgrees, Emits, BadRows, BadHeads, RebuildAll, RebuiltHeads, RebuildReportOf, Scan;
    RebuildIsExact(log, hist, grid, heads, Some(stream));
    StreamOf(heads, hist, stream);
    assert RowsIn(log, Some(stream)) == set rk | rk in log && rk.key.stream == stream;
  }

  lemma StreamOf(heads: Heads, hist: History, stream: string)
    ensures AggregatesIn(hist, Some(stream)) == set key | key in hist && key.stream == stream
    ensures KeysInScope(heads, Some(stream)) - AggregatesIn(hist, Some(stream))
         == set key | key in heads && key.stream == stream && key !in hist
    ensures (set key | key in AggregatesIn(hist, Some(stream)) :: key.stream)
         == if exists key :: key in hist && key.stream == stream then {stream} else {}
  {
    if key :| key in hist && key.stream == stream { assert key in AggregatesIn(hist, Some(stream)); }
  }
}
