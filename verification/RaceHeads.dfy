/** What any interleaving of any planned requests on one aggregate does to its log
    and its head. */
module RaceHeads {
  import opened Results
  import opened JsonValues
  import opened Tables
  import opened LogReads
  import opened Commits
  import opened Agreement
  import opened Replays
  import opened Race

  /** Planned requests on one aggregate, each of any content and on any revision,
      from agreeing tables. */
  ghost predicate Mixed(f: Field, db: Db, hist: History, grid: Grid) {
    Served(f, grid) && Agrees(db, hist, grid)
  }

  ghost predicate Served(f: Field, grid: Grid) {
    && ValidEncodings(f.enc) && OnGrid(f.enc, grid) && |f.times| == |f.reqs|
    && forall i :: 0 <= i < |f.reqs| ==> f.reqs[i].key == f.key && Planned(f.reqs[i])
  }

  // ----------------------------------------------------------------- invariant

  /** Every head exists, the aggregate's at some committed revision and all others
      at their last. */
  ghost predicate HeadsStand(heads: Heads, hist: History, key: Key) {
    && heads.Keys == hist.Keys
    && HeadBehind(heads, hist, key)
    && forall k :: k in hist && k != key ==>
         hist[k] != [] && heads[k] == ProjectedHead(k, |hist[k]| - 1, hist[k][|hist[k]| - 1])
  }

  /** A head that was read was the projection of a committed revision. */
  predicate Seen(hist: History, key: Key, h: Option<Head>) {
    h.Some? ==>
      && 0 <= h.value.rev < |RevsOf(hist, key)|
      && h.value == ProjectedHead(key, h.value.rev, hist[key][h.value.rev])
  }

  /** The head is the tip, or missing for an aggregate without revisions. */
  predicate IsTip(hist: History, key: Key, h: Option<Head>) {
    match h
    case None => RevsOf(hist, key) == []
    case Some(v) => RevsOf(hist, key) != [] && v.rev == |RevsOf(hist, key)| - 1
  }

  predicate PhaseFits(f: Field, s: State, hist: History, i: nat)
    requires i < |s.phases| && i < |f.reqs|
  {
    var p := s.phases[i];
    && (Locks(p) ==> p.head == HeadOf(s.db.heads, f.key))
    && match p
       case Idle => true
       case SawHead(h) => Seen(hist, f.key, h)
       case SawRow(h, r) => Seen(hist, f.key, h) && (r.Some? ==> r == RowOf(s.db.log, TargetKey(f.reqs[i])))
       case Inserted(h) =>
         && Seen(hist, f.key, h) && IsTip(hist, f.key, h) && ExpectedHolds(RevsOf(hist, f.key), f.reqs[i])
       case Done(_) => true
  }

  /** The log agrees with a history, heads stand, and what each writer saw fits. */
  ghost predicate Steady(f: Field, s: State, hist: History, grid: Grid) {
    && Running(f, s) && Served(f, grid) && OneLock(f, s)
    && LogAgrees(s.db.log, hist, grid) && HeadsStand(s.db.heads, hist, f.key)
    && (forall i :: 0 <= i < |f.reqs| ==> PhaseFits(f, s, hist, i))
    && (forall i, j :: 0 <= i < |f.reqs| && 0 <= j < |f.reqs| && i != j ==>
          !(s.phases[i].Inserted? && s.phases[j].Inserted?))
  }

  // ------------------------------------------------------------------ the steps

  lemma RowsAt(log: Log, hist: History, grid: Grid, key: Key, r: int)
    requires LogAgrees(log, hist, grid)
    ensures RowKey(key, r) in log <==> 0 <= r < |RevsOf(hist, key)|
    ensures 0 <= r < |RevsOf(hist, key)| ==> RowMatches(log[RowKey(key, r)], hist[key][r])
    ensures key in hist ==> hist[key] != []
  {
    hide Gridded, FullFold;
    assert RowKey(key, r) in log <==> 0 <= RowKey(key, r).rev < |RevsOf(hist, key)|;
    if key in hist { assert AggregateAgrees(log, key, hist[key], GridOf(grid, key.stream)); }
    if 0 <= r < |RevsOf(hist, key)| { assert RevisionAgrees(log, key, r, hist[key][r]); }
  }

  lemma ReadHeadSteady(f: Field, s: State, hist: History, grid: Grid, i: nat)
    requires Steady(f, s, hist, grid) && Enabled(f, s, ReadHead(i))
    ensures Steady(f, After(f, s, ReadHead(i)), hist, grid)
  {
    hide LogAgrees, Served, OneLock;
    StepKeepsOneLock(f, s, ReadHead(i));
    var after := After(f, s, ReadHead(i));
    forall j | 0 <= j < |f.reqs| ensures PhaseFits(f, after, hist, j) { assert PhaseFits(f, s, hist, j); }
  }

  lemma ReadRowSteady(f: Field, s: State, hist: History, grid: Grid, i: nat)
    requires Steady(f, s, hist, grid) && Enabled(f, s, ReadRow(i))
    ensures Steady(f, After(f, s, ReadRow(i)), hist, grid)
  {
    hide LogAgrees, Served, OneLock, HeadsStand;
    StepKeepsOneLock(f, s, ReadRow(i));
    var after := After(f, s, ReadRow(i));
    forall j | 0 <= j < |f.reqs| ensures PhaseFits(f, after, hist, j) { assert PhaseFits(f, s, hist, j); }
  }

  /** An append decided on a head and row that fit is on the current tip, unless
      the row is there by now. */
  lemma FreshAppendIsOnTip(f: Field, s: State, hist: History, grid: Grid, i: nat)
    requires Steady(f, s, hist, grid) && i < |f.reqs| && s.phases[i].SawRow?
    requires Decide(s.phases[i].head, s.phases[i].row, f.reqs[i]).Append? && TargetKey(f.reqs[i]) !in s.db.log
    ensures IsTip(hist, f.key, s.phases[i].head) && ExpectedHolds(RevsOf(hist, f.key), f.reqs[i])
    ensures TargetKey(f.reqs[i]) == RowKey(f.key, |RevsOf(hist, f.key)|)
  {
    hide LogAgrees, HeadsStand, OneLock, Planned, OnGrid, ValidEncodings;
    assert PhaseFits(f, s, hist, i);
    RowsAt(s.db.log, hist, grid, f.key, Target(f.reqs[i]));
  }

  /** What an insert step does: it waits for its commit on the tip, repairs the
      head, or ends. */
  lemma InsertCases(f: Field, s: State, hist: History, grid: Grid, i: nat)
    requires Steady(f, s, hist, grid) && Enabled(f, s, Insert(i))
    ensures var (db, phase) := Move(f, s, Insert(i));
      var d := Decide(s.phases[i].head, s.phases[i].row, f.reqs[i]);
      match d
      case Refuse => db == s.db && phase == Done(Err(RevisionConflict))
      case Append(_) =>
        && db == s.db
        && (phase.Done? || (phase == Inserted(s.phases[i].head) && TargetKey(f.reqs[i]) !in s.db.log))
      case Replay(_) =>
        && phase.Done? && 0 <= Target(f.reqs[i]) < |RevsOf(hist, f.key)|
        && db == Repaired(s.db, hist, f.key, s.phases[i].head, Target(f.reqs[i]))
  {
    hide LogAgrees, HeadsStand, OneLock, Planned, OnGrid, DocEq, RowAllowed;
    assert PhaseFits(f, s, hist, i);
    if Decide(s.phases[i].head, s.phases[i].row, f.reqs[i]).Replay? {
      ReplayRepairs(f, s, hist, grid, i);
    }
  }

  /** The tables after a replay of revision `r` decided on the head `h`. */
  function Repaired(db: Db, hist: History, key: Key, h: Option<Head>, r: int): Db
    requires 0 <= r < |RevsOf(hist, key)|
  {
    if h.Some? && h.value.rev >= r then db
    else db.(heads := db.heads[key := ProjectedHead(key, r, hist[key][r])])
  }

  lemma ReplayRepairs(f: Field, s: State, hist: History, grid: Grid, i: nat)
    requires Steady(f, s, hist, grid) && i < |f.reqs| && s.phases[i].SawRow?
    requires Decide(s.phases[i].head, s.phases[i].row, f.reqs[i]).Replay?
    ensures 0 <= Target(f.reqs[i]) < |RevsOf(hist, f.key)|
    ensures var row := Decide(s.phases[i].head, s.phases[i].row, f.reqs[i]).row;
      RepairFrom(s.db, f.enc, s.phases[i].head, TargetKey(f.reqs[i]), row)
      == Ok(Repaired(s.db, hist, f.key, s.phases[i].head, Target(f.reqs[i])))
  {
    hide LogAgrees, HeadsStand, OneLock, Planned, OnGrid, DocEq, RepairFrom;
    assert PhaseFits(f, s, hist, i);
    RowsAt(s.db.log, hist, grid, f.key, Target(f.reqs[i]));
    hide PhaseFits;
    RepairProjects(s.db, hist, grid, f.enc, f.key, s.phases[i].head, Target(f.reqs[i]));
  }

  lemma RepairProjects(db: Db, hist: History, grid: Grid, enc: Encodings, key: Key, h: Option<Head>, r: int)
    requires LogAgrees(db.log, hist, grid) && OnGrid(enc, grid) && ValidEncodings(enc)
    requires 0 <= r < |RevsOf(hist, key)| && RowKey(key, r) in db.log
    ensures RepairFrom(db, enc, h, RowKey(key, r), db.log[RowKey(key, r)]) == Ok(Repaired(db, hist, key, h, r))
  {
    hide LogAgrees, OnGrid, Decoded;
    RowsAt(db.log, hist, grid, key, r);
    ReadsAgree(db.log, hist, grid, enc, key, r);
  }

  lemma InsertSteady(f: Field, s: State, hist: History, grid: Grid, i: nat)
    requires Steady(f, s, hist, grid) && Enabled(f, s, Insert(i))
    ensures Steady(f, After(f, s, Insert(i)), hist, grid)
  {
    hide LogAgrees, Served, OneLock, Move;
    var after := After(f, s, Insert(i));
    InsertCases(f, s, hist, grid, i);
    StepKeepsOneLock(f, s, Insert(i));
    if after.phases[i].Inserted? {
      FreshAppendIsOnTip(f, s, hist, grid, i);
      InsertedAlone(f, s, hist, grid, i);
    }
    InsertKeepsHeads(f, s, hist, grid, i);
    forall j | 0 <= j < |f.reqs| ensures PhaseFits(f, after, hist, j) { InsertFits(f, s, hist, grid, i, j); }
  }

  /** No other writer waits with a row of the same revision, and all waiting rows
      are of the next one. */
  lemma InsertedAlone(f: Field, s: State, hist: History, grid: Grid, i: nat)
    requires Steady(f, s, hist, grid) && Enabled(f, s, Insert(i))
    requires Decide(s.phases[i].head, s.phases[i].row, f.reqs[i]).Append?
    requires TargetKey(f.reqs[i]) == RowKey(f.key, |RevsOf(hist, f.key)|)
    ensures forall j :: 0 <= j < |f.reqs| ==> !s.phases[j].Inserted?
  {
    hide LogAgrees, OneLock, HeadsStand, Decide, Planned, OnGrid, HeadIsFree;
    forall j | 0 <= j < |f.reqs| ensures !s.phases[j].Inserted? {
      assert PhaseFits(f, s, hist, j);
    }
  }

  lemma InsertKeepsHeads(f: Field, s: State, hist: History, grid: Grid, i: nat)
    requires Steady(f, s, hist, grid) && Enabled(f, s, Insert(i))
    ensures var after := After(f, s, Insert(i));
      after.db.log == s.db.log && HeadsStand(after.db.heads, hist, f.key)
  {
    hide LogAgrees, Served, OneLock, Move, Decide;
    InsertCases(f, s, hist, grid, i);
  }

  lemma InsertFits(f: Field, s: State, hist: History, grid: Grid, i: nat, j: nat)
    requires Steady(f, s, hist, grid) && Enabled(f, s, Insert(i)) && j < |f.reqs|
    ensures PhaseFits(f, After(f, s, Insert(i)), hist, j)
  {
    hide LogAgrees, Served, OneLock, Move, HeadsStand, Decide;
    var after := After(f, s, Insert(i));
    InsertCases(f, s, hist, grid, i);
    InsertKeepsHeads(f, s, hist, grid, i);
    assert PhaseFits(f, s, hist, j) && PhaseFits(f, s, hist, i);
    if j == i {
      if after.phases[i].Inserted? { FreshAppendIsOnTip(f, s, hist, grid, i); }
    } else if Locks(s.phases[j]) {
      LockedHeadStays(f, s, hist, grid, i, j);
    }
  }

  /** A replay does not touch a head that another writer has locked. */
  lemma LockedHeadStays(f: Field, s: State, hist: History, grid: Grid, i: nat, j: nat)
    requires Steady(f, s, hist, grid) && Enabled(f, s, Insert(i)) && j < |f.reqs| && j != i && Locks(s.phases[j])
    ensures After(f, s, Insert(i)).db == s.db
  {
    hide LogAgrees, Served, Move, HeadsStand, Decide;
    InsertCases(f, s, hist, grid, i);
  }

  /** A writer about to commit sees tables that agree altogether. */
  lemma InsertedSeesAgreement(f: Field, s: State, hist: History, grid: Grid, i: nat)
    requires Steady(f, s, hist, grid) && i < |f.reqs| && s.phases[i].Inserted?
    ensures Agrees(s.db, hist, grid) && s.phases[i].head == HeadOf(s.db.heads, f.key)
    ensures ExpectedHolds(RevsOf(hist, f.key), f.reqs[i])
    ensures TargetKey(f.reqs[i]) == RowKey(f.key, |RevsOf(hist, f.key)|) && TargetKey(f.reqs[i]) !in s.db.log
  {
    hide LogAgrees, Planned, OnGrid, OneLock;
    assert PhaseFits(f, s, hist, i);
    RowsAt(s.db.log, hist, grid, f.key, |RevsOf(hist, f.key)|);
    forall k | k in hist ensures hist[k] != [] { RowsAt(s.db.log, hist, grid, k, 0); }
  }

  /** A commit fails without effect, or extends the history by its revision. */
  lemma CommitSteady(f: Field, s: State, hist: History, grid: Grid, i: nat) returns (hist': History)
    requires Steady(f, s, hist, grid) && Enabled(f, s, Commit(i))
    ensures hist' == hist || hist' == hist[f.key := RevsOf(hist, f.key) + [RevisionOf(f.reqs[i], f.times[i])]]
    ensures Steady(f, After(f, s, Commit(i)), hist', grid)
    ensures if hist' == hist then After(f, s, Commit(i)).db == s.db
            else Agrees(After(f, s, Commit(i)).db, hist', grid)
  {
    hide LogAgrees, HeadsStand, OneLock, OnGrid, Planned, Reproducible, RowAllowed, InsertIntents, AppendRow, NewRow;
    hide PhaseFits, RevisionOf, Agrees;
    var after := After(f, s, Commit(i));
    InsertedSeesAgreement(f, s, hist, grid, i);
    AppendFollowsHistory(s.db, hist, grid, f.enc, f.reqs[i], f.times[i]);
    StepKeepsOneLock(f, s, Commit(i));
    if AppendRow(s.db, f.enc, s.phases[i].head, f.reqs[i], f.times[i]).Ok? {
      hist' := hist[f.key := RevsOf(hist, f.key) + [RevisionOf(f.reqs[i], f.times[i])]];
      AgreementStands(after.db, hist', grid, f.key);
      forall j | 0 <= j < |f.reqs| ensures PhaseFits(f, after, hist', j) { CommitFits(f, s, hist, grid, i, j); }
      LongerHistory(hist, f.key, RevisionOf(f.reqs[i], f.times[i]));
    } else {
      hist' := hist;
      forall j | 0 <= j < |f.reqs| ensures PhaseFits(f, after, hist, j) { FailureFits(f, s, hist, i, after, j); }
    }
  }

  lemma LongerHistory(hist: History, key: Key, rev: Revision)
    ensures hist[key := RevsOf(hist, key) + [rev]] != hist
  {
    assert |RevsOf(hist[key := RevsOf(hist, key) + [rev]], key)| == |RevsOf(hist, key)| + 1;
  }

  lemma AgreementStands(db: Db, hist: History, grid: Grid, key: Key)
    requires Agrees(db, hist, grid)
    ensures LogAgrees(db.log, hist, grid) && HeadsStand(db.heads, hist, key)
  {
    hide LogAgrees;
  }

  lemma FailureFits(f: Field, s: State, hist: History, i: nat, after: State, j: nat)
    requires i < |f.reqs| && j < |f.reqs| && |s.phases| == |f.reqs| && PhaseFits(f, s, hist, j)
    requires after.db == s.db && |after.phases| == |s.phases|
    requires after.phases == s.phases[i := after.phases[i]] && after.phases[i].Done?
    ensures PhaseFits(f, after, hist, j)
  {
  }

  /** The other writers' sightings stay true when one commits. */
  lemma CommitFits(f: Field, s: State, hist: History, grid: Grid, i: nat, j: nat)
    requires Steady(f, s, hist, grid) && Enabled(f, s, Commit(i)) && j < |f.reqs|
    requires AppendRow(s.db, f.enc, s.phases[i].head, f.reqs[i], f.times[i]).Ok?
    ensures PhaseFits(f, After(f, s, Commit(i)),
                      hist[f.key := RevsOf(hist, f.key) + [RevisionOf(f.reqs[i], f.times[i])]], j)
  {
    hide LogAgrees, HeadsStand, OnGrid, Planned, Reproducible, RowAllowed, InsertIntents, AppendRow, NewRow;
    hide RevisionOf, Agrees;
    assert PhaseFits(f, s, hist, j) && PhaseFits(f, s, hist, i);
    if j != i {
      InsertedSeesAgreement(f, s, hist, grid, i);
      AppendFollowsHistory(s.db, hist, grid, f.enc, f.reqs[i], f.times[i]);
      assert !Locks(s.phases[j]) by { NoOtherLock(f, s, hist, grid, i, j); }
    }
  }

  lemma NoOtherLock(f: Field, s: State, hist: History, grid: Grid, i: nat, j: nat)
    requires Steady(f, s, hist, grid) && i < |f.reqs| && j < |f.reqs| && i != j && s.phases[i].Inserted?
    ensures !Locks(s.phases[j])
  {
    hide LogAgrees, Served;
    assert PhaseFits(f, s, hist, j) && PhaseFits(f, s, hist, i);
    if s.phases[i].head.None? { InsertedSeesAgreement(f, s, hist, grid, i); }
  }

  // ------------------------------------------------------- every interleaving

  ghost predicate Extends(before: History, after: History, key: Key) {
    && RevsOf(before, key) <= RevsOf(after, key)
    && forall k :: k != key ==> RevsOf(after, k) == RevsOf(before, k)
  }

  lemma StepSteady(f: Field, s: State, hist: History, grid: Grid, step: Step) returns (hist': History)
    requires Steady(f, s, hist, grid) && Enabled(f, s, step)
    ensures Steady(f, After(f, s, step), hist', grid) && Extends(hist, hist', f.key)
  {
    hide Steady, Enabled, Move;
    hist' := hist;
    match step
    case ReadHead(i) => ReadHeadSteady(f, s, hist, grid, i);
    case ReadRow(i) => ReadRowSteady(f, s, hist, grid, i);
    case Insert(i) => InsertSteady(f, s, hist, grid, i);
    case Commit(i) => hist' := CommitSteady(f, s, hist, grid, i);
  }

  lemma StartSteady(f: Field, db: Db, hist: History, grid: Grid)
    requires Mixed(f, db, hist, grid)
    ensures Steady(f, Start(f, db), hist, grid)
  {
    hide LogAgrees;
  }

  /** At every point of every interleaving, of any planned requests on an
      aggregate, the log represents a history that extends the one at the start,
      and the head is the projection of one of its revisions. */
  lemma {:induction false} EveryInterleavingIsSteady(
      f: Field, db: Db, hist: History, grid: Grid, steps: seq<Step>, s: State) returns (now: History)
    requires Mixed(f, db, hist, grid) && Interleaves(f, db, steps, s)
    ensures Steady(f, s, now, grid) && Extends(hist, now, f.key)
    decreases |steps|
  {
    hide Steady, Mixed, Move, Enabled;
    if steps == [] {
      StartSteady(f, db, hist, grid);
      now := hist;
    } else {
      var front, last := steps[..|steps| - 1], steps[|steps| - 1];
      var mid :| Interleaves(f, db, front, mid) && Running(f, mid) && Enabled(f, mid, last) && s == After(f, mid, last);
      var before := EveryInterleavingIsSteady(f, db, hist, grid, front, mid);
      now := StepSteady(f, mid, before, grid, last);
    }
  }

  // --------------------------------------------------------- when a head falls

  /** The step replays a revision below the current head, for a writer that read no
      head. */
  predicate StaleReplay(f: Field, s: State, step: Step)
    requires Running(f, s) && Enabled(f, s, step)
  {
    && step.Insert? && s.phases[step.i].head.None?
    && Decide(None, s.phases[step.i].row, f.reqs[step.i]).Replay?
    && Target(f.reqs[step.i]) < HeadRev(s.db.heads, f.key)
  }

  lemma SteadyHeadFallsIff(f: Field, s: State, hist: History, grid: Grid, step: Step)
    requires Steady(f, s, hist, grid) && Enabled(f, s, step)
    ensures HeadRev(After(f, s, step).db.heads, f.key) < HeadRev(s.db.heads, f.key) <==> StaleReplay(f, s, step)
    ensures StaleReplay(f, s, step) ==> HeadRev(After(f, s, step).db.heads, f.key) == Target(f.reqs[step.i])
  {
    hide LogAgrees, Served, OneLock, HeadsStand;
    match step
    case Insert(i) =>
      assert PhaseFits(f, s, hist, i);
      InsertCases(f, s, hist, grid, i);
      hide Move;
    case Commit(i) =>
      hide PhaseFits, AppendRow;
      CommitRaisesHead(f, s, hist, grid, i);
    case _ =>
  }

  lemma CommitRaisesHead(f: Field, s: State, hist: History, grid: Grid, i: nat)
    requires Steady(f, s, hist, grid) && Enabled(f, s, Commit(i))
    ensures HeadRev(After(f, s, Commit(i)).db.heads, f.key) >= HeadRev(s.db.heads, f.key)
  {
    hide LogAgrees, OnGrid, Planned, Reproducible, RowAllowed, InsertIntents, AppendRow, NewRow, OneLock;
    InsertedSeesAgreement(f, s, hist, grid, i);
    AppendFollowsHistory(s.db, hist, grid, f.enc, f.reqs[i], f.times[i]);
  }

  /** The store means that a head never moves backwards.  In every interleaving of
      planned requests on an aggregate, a step lowers its head if and only if it
      replays a revision below the head for a writer that had read no head; and it
      lowers it to that revision. */
  lemma HeadFallsIffStaleReplay(
      f: Field, db: Db, hist: History, grid: Grid, steps: seq<Step>, s: State, step: Step)
    requires Mixed(f, db, hist, grid) && Interleaves(f, db, steps, s) && Running(f, s) && Enabled(f, s, step)
    ensures HeadRev(After(f, s, step).db.heads, f.key) < HeadRev(s.db.heads, f.key) <==> StaleReplay(f, s, step)
    ensures StaleReplay(f, s, step) ==> HeadRev(After(f, s, step).db.heads, f.key) == Target(f.reqs[step.i])
  {
    hide Steady, Mixed, Move, Enabled, StaleReplay;
    var now := EveryInterleavingIsSteady(f, db, hist, grid, steps, s);
    SteadyHeadFallsIff(f, s, now, grid, step);
  }

  // ---------------------------------------------- aggregates that already exist

  /** Every running writer read a head. */
  predicate AllSawHead(s: State) {
    forall i :: 0 <= i < |s.phases| ==> s.phases[i].Idle? || s.phases[i].Done? || s.phases[i].head.Some?
  }

  lemma StepSeesHead(f: Field, s: State, step: Step)
    requires Running(f, s) && Enabled(f, s, step) && AllSawHead(s) && f.key in s.db.heads
    ensures AllSawHead(After(f, s, step)) && f.key in After(f, s, step).db.heads
  {
    hide RowAllowed, Decoded, NewRow, InsertIntents, RecordFingerprint, Identical;
  }

  /** Where head and log agree, a replay that read the head changes nothing. */
  lemma InsertOnExisting(f: Field, s: State, hist: History, grid: Grid, i: nat)
    requires Steady(f, s, hist, grid) && Enabled(f, s, Insert(i)) && AllSawHead(s) && HeadsAgree(s.db.heads, hist)
    ensures After(f, s, Insert(i)).db == s.db
  {
    hide LogAgrees, Served, OneLock, Move, Decide;
    assert PhaseFits(f, s, hist, i);
    InsertCases(f, s, hist, grid, i);
  }

  lemma StepOnExisting(f: Field, s: State, hist: History, grid: Grid, step: Step) returns (hist': History)
    requires Running(f, s) && Steady(f, s, hist, grid) && Enabled(f, s, step)
    requires AllSawHead(s) && f.key in s.db.heads && Agrees(s.db, hist, grid)
    ensures var after := After(f, s, step);
      && Steady(f, after, hist', grid) && Extends(hist, hist', f.key)
      && AllSawHead(after) && f.key in after.db.heads && Agrees(after.db, hist', grid)
  {
    hide LogAgrees, HeadsAgree, Steady, Enabled, AllSawHead, AppendRow, AfterInsert, AfterCommit;
    hist' := hist;
    StepSeesHead(f, s, step);
    match step
    case ReadHead(i) => ReadHeadSteady(f, s, hist, grid, i);
    case ReadRow(i) => ReadRowSteady(f, s, hist, grid, i);
    case Insert(i) =>
      InsertSteady(f, s, hist, grid, i);
      InsertOnExisting(f, s, hist, grid, i);
    case Commit(i) => hist' := CommitSteady(f, s, hist, grid, i);
  }

  /** On an aggregate that existed before, no interleaving of planned requests ever
      leaves log and head apart. */
  lemma {:induction false} ExistingAggregateStaysAgreed(
      f: Field, db: Db, hist: History, grid: Grid, steps: seq<Step>, s: State) returns (now: History)
    requires Mixed(f, db, hist, grid) && Interleaves(f, db, steps, s) && f.key in db.heads
    ensures Steady(f, s, now, grid) && Extends(hist, now, f.key)
    ensures AllSawHead(s) && f.key in s.db.heads && Agrees(s.db, now, grid)
    decreases |steps|
  {
    hide Steady, Move, Enabled, Agrees, Served;
    if steps == [] {
      StartSteady(f, db, hist, grid);
      now := hist;
    } else {
      var front, last := steps[..|steps| - 1], steps[|steps| - 1];
      var mid :| Interleaves(f, db, front, mid) && Running(f, mid) && Enabled(f, mid, last) && s == After(f, mid, last);
      var before := ExistingAggregateStaysAgreed(f, db, hist, grid, front, mid);
      now := StepOnExisting(f, mid, before, grid, last);
    }
  }
}
