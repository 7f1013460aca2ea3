/** Writers racing on one aggregate.  A commit transaction is split where others can
    interleave: it reads the head (locking only a row that exists), reads the target
    row, inserts the revision (waiting for an uncommitted insert of the same key) or
    repairs the head (waiting for another's lock on it), and commits. */
module Race {
  import opened Results
  import opened JsonValues
  import opened Tables
  import opened LogReads
  import opened Commits
  import opened Agreement

  datatype Phase =
    | Idle
    | SawHead(head: Option<Head>)
    | SawRow(head: Option<Head>, row: Option<Row>)
    | Inserted(head: Option<Head>)
    | Done(outcome: Result<CommitResult>)

  /** The committed tables, and where each writer is. */
  datatype State = State(db: Db, phases: seq<Phase>)

  /** Who races: one request and one transaction clock reading per writer. */
  datatype Field = Field(key: Key, enc: Encodings, reqs: seq<CommitRequest>, times: seq<Time>)

  datatype Step = ReadHead(i: nat) | ReadRow(i: nat) | Insert(i: nat) | Commit(i: nat)

  /** SELECT ... FOR UPDATE locked an existing head row. */
  predicate Locks(p: Phase) {
    (p.SawHead? || p.SawRow? || p.Inserted?) && p.head.Some?
  }

  predicate Running(f: Field, s: State) {
    |s.phases| == |f.reqs| == |f.times| && ValidEncodings(f.enc)
  }

  /** No other writer has an uncommitted row of the same revision. */
  predicate InsertIsFree(f: Field, s: State, i: nat)
    requires Running(f, s) && i < |f.reqs|
  {
    forall j :: 0 <= j < |f.reqs| && s.phases[j].Inserted? ==> TargetKey(f.reqs[j]) != TargetKey(f.reqs[i])
  }

  /** The head row, if there is one, is not locked by another writer. */
  predicate HeadIsFree(f: Field, s: State, i: nat)
    requires Running(f, s) && i < |f.reqs|
  {
    f.key in s.db.heads ==> forall j :: 0 <= j < |f.reqs| && j != i ==> !Locks(s.phases[j])
  }

  predicate Enabled(f: Field, s: State, step: Step)
    requires Running(f, s)
  {
    && step.i < |f.reqs|
    && match step
       case ReadHead(i) =>
         && s.phases[i].Idle?
         && (f.key in s.db.heads ==> forall j :: 0 <= j < |f.reqs| ==> !Locks(s.phases[j]))
       case ReadRow(i) => s.phases[i].SawHead?
       case Insert(i) =>
         && s.phases[i].SawRow?
         && (Decide(s.phases[i].head, s.phases[i].row, f.reqs[i]).Append? ==> InsertIsFree(f, s, i))
         && (Decide(s.phases[i].head, s.phases[i].row, f.reqs[i]).Replay? ==> HeadIsFree(f, s, i))
       case Commit(i) => s.phases[i].Inserted?
  }

  /** The repair of a replay, decided from the head that was read, which another
      writer may have moved since. */
  function RepairFrom(
      db: Db, enc: Encodings, head: Option<Head>, rk: RowKey, row: Row): Result<Db>
    requires ValidEncodings(enc)
  {
    if head.Some? && head.value.rev >= rk.rev then Ok(db)
    else
      var doc :- Decoded(db.log, enc, rk.key, rk.rev);
      Ok(db.(heads := db.heads[rk.key := HeadFromRow(rk, row, doc)]))
  }

  /** What the INSERT does after the decision on what was read: a row that has
      been committed meanwhile is a lost race. */
  function AfterInsert(
      f: Field, db: Db, head: Option<Head>, row: Option<Row>, req: CommitRequest, now: Time): (Db, Phase)
    requires ValidEncodings(f.enc)
  {
    match Decide(head, row, req)
    case Refuse => (db, Done(Err(RevisionConflict)))
    case Append(base) =>
      if !RowAllowed(req) then (db, Done(Err(StoreError)))
      else if TargetKey(req) in db.log then (db, Done(Err(RevisionConflict)))
      else (db, Inserted(base))
    case Replay(existing) =>
      match RepairFrom(db, f.enc, head, TargetKey(req), existing)
      case Err(e) => (db, Done(Err(e)))
      case Ok(db') => (db', Done(Ok(CommitResult(req.key, Target(req), now, true))))
  }

  function AfterCommit(f: Field, db: Db, base: Option<Head>, req: CommitRequest, now: Time): (Db, Phase)
    requires ValidEncodings(f.enc)
  {
    match AppendRow(db, f.enc, base, req, now)
    case Err(e) => (db, Done(Err(e)))
    case Ok(db') => (db', Done(Ok(CommitResult(req.key, Target(req), now, false))))
  }

  function Move(f: Field, s: State, step: Step): (Db, Phase)
    requires Running(f, s) && Enabled(f, s, step)
  {
    var i := step.i;
    match step
    case ReadHead(_) => (s.db, SawHead(HeadOf(s.db.heads, f.key)))
    case ReadRow(_) => (s.db, SawRow(s.phases[i].head, RowOf(s.db.log, TargetKey(f.reqs[i]))))
    case Insert(_) => AfterInsert(f, s.db, s.phases[i].head, s.phases[i].row, f.reqs[i], f.times[i])
    case Commit(_) => AfterCommit(f, s.db, s.phases[i].head, f.reqs[i], f.times[i])
  }

  function After(f: Field, s: State, step: Step): State
    requires Running(f, s) && Enabled(f, s, step)
  {
    var (db, phase) := Move(f, s, step);
    State(db, s.phases[step.i := phase])
  }

  function Start(f: Field, db: Db): State {
    State(db, seq(|f.reqs|, _ => Idle))
  }

  /** `s` is reached from the start by an interleaving of the writers' steps. */
  ghost predicate Interleaves(f: Field, db: Db, steps: seq<Step>, s: State)
    decreases |steps|
  {
    if steps == [] then s == Start(f, db)
    else exists mid ::
      && Interleaves(f, db, steps[..|steps| - 1], mid)
      && Running(f, mid) && Enabled(f, mid, steps[|steps| - 1])
      && s == After(f, mid, steps[|steps| - 1])
  }

  predicate AllDone(s: State) {
    forall i :: 0 <= i < |s.phases| ==> s.phases[i].Done?
  }

  /** Running alone, the split transaction is the atomic commit. */
  lemma SoloIsAtomic(f: Field, db: Db, i: nat)
    requires |f.reqs| == |f.times| && ValidEncodings(f.enc) && i < |f.reqs| && f.reqs[i].key == f.key
    ensures var req, now := f.reqs[i], f.times[i];
      var (db1, phase) := AfterInsert(f, db, HeadOf(db.heads, f.key), RowOf(db.log, TargetKey(req)), req, now);
      var (after, end) := if phase.Inserted? then AfterCommit(f, db1, phase.head, req, now) else (db1, phase);
      match CommitOne(db, f.enc, req, now)
      case Err(e) => after == db && end == Done(Err(e))
      case Ok(c) => after == c.db && end == Done(Ok(c.result))
  {
  }

  lemma Advance(f: Field, db: Db, steps: seq<Step>, s: State, step: Step)
    requires Interleaves(f, db, steps, s) && Running(f, s) && Enabled(f, s, step)
    ensures Interleaves(f, db, steps + [step], After(f, s, step))
  {
    hide Enabled, Move;
    var all := steps + [step];
    assert all[..|all| - 1] == steps && all[|all| - 1] == step;
  }

  function SoloSteps(i: nat): seq<Step> {
    [ReadHead(i)] + [ReadRow(i)] + [Insert(i)] + [Commit(i)]
  }

  /** A writer that appends while no other holds the head or a row, from its first
      step to its last. */
  lemma SoloRuns(f: Field, db: Db, steps: seq<Step>, s: State, i: nat)
    requires Interleaves(f, db, steps, s) && Running(f, s) && i < |f.reqs| && s.phases[i].Idle?
    requires f.reqs[i].key == f.key
    requires forall j :: 0 <= j < |f.reqs| ==> !Locks(s.phases[j]) && !s.phases[j].Inserted?
    requires CommitOne(s.db, f.enc, f.reqs[i], f.times[i]).Ok?
    requires !CommitOne(s.db, f.enc, f.reqs[i], f.times[i]).value.result.replayed
    ensures var c := CommitOne(s.db, f.enc, f.reqs[i], f.times[i]).value;
      Interleaves(f, db, steps + SoloSteps(i), State(c.db, s.phases[i := Done(Ok(c.result))]))
  {
    hide Interleaves, AppendRow, RepairHead, RepairFrom, Identical, RowAllowed;
    var req, now := f.reqs[i], f.times[i];
    var head := HeadOf(s.db.heads, f.key);
    AppendRowFacts(s.db, f.enc, head, req, now);
    Advance(f, db, steps, s, ReadHead(i));
    var s1 := After(f, s, ReadHead(i));
    Advance(f, db, steps + [ReadHead(i)], s1, ReadRow(i));
    var s2 := After(f, s1, ReadRow(i));
    Advance(f, db, steps + [ReadHead(i)] + [ReadRow(i)], s2, Insert(i));
    var s3 := After(f, s2, Insert(i));
    Advance(f, db, steps + [ReadHead(i)] + [ReadRow(i)] + [Insert(i)], s3, Commit(i));
    assert steps + [ReadHead(i)] + [ReadRow(i)] + [Insert(i)] + [Commit(i)] == steps + SoloSteps(i);
    var s4 := After(f, s3, Commit(i));
    assert s3.db == s.db && s3.phases == s.phases[i := Inserted(head)];
    assert s4.phases == s.phases[i := s4.phases[i]];
  }

  lemma AppendRowFacts(db: Db, enc: Encodings, base: Option<Head>, req: CommitRequest, now: Time)
    requires ValidEncodings(enc)
    ensures AppendRow(db, enc, base, req, now).Ok? ==> RowAllowed(req) && TargetKey(req) !in db.log
  {
    hide Decoded, NewRow, InsertIntents;
  }

  // ------------------------------------------------------------ one winner

  /** All writers are planned on the current state of one aggregate, and each would
      be accepted on its own.  Nothing is said of their contents. */
  ghost predicate Contended(f: Field, db: Db, hist: History, grid: Grid) {
    && ValidEncodings(f.enc) && OnGrid(f.enc, grid) && Agrees(db, hist, grid) && |f.times| == |f.reqs|
    && forall i :: 0 <= i < |f.reqs| ==> Contends(f, db, hist, i)
  }

  predicate Contends(f: Field, db: Db, hist: History, i: nat)
    requires ValidEncodings(f.enc) && |f.times| == |f.reqs| && i < |f.reqs|
  {
    && f.reqs[i].key == f.key && Planned(f.reqs[i])
    && Judge(hist, f.enc, db.intents, f.reqs[i], f.times[i]).Accepted?
  }

  /** Writer `j`'s request is, to the store, the content that writer `w` wrote:
      same kind, versions and digest, and metadata equal to Python. */
  predicate SameContent(f: Field, w: nat, j: nat)
    requires |f.times| == |f.reqs| && w < |f.reqs| && j < |f.reqs|
  {
    SameRevision(RevisionOf(f.reqs[w], f.times[w]), f.reqs[j])
  }

  /** Writer `w` alone wrote its row, and the tables hold exactly the history
      extended by it; nothing of the others is left. */
  ghost predicate WonBy(f: Field, db: Db, hist: History, grid: Grid, s: State, w: nat)
    requires ValidEncodings(f.enc) && |f.times| == |f.reqs| && w < |f.reqs|
  {
    var req, n := f.reqs[w], |RevsOf(hist, f.key)|;
    && RowKey(f.key, n) !in db.log
    && s.db.log == db.log[RowKey(f.key, n) := NewRow(f.enc, HeadOf(db.heads, f.key), req, f.times[w])]
    && Agrees(s.db, hist[f.key := RevsOf(hist, f.key) + [RevisionOf(req, f.times[w])]], grid)
    && InsertIntents(db.intents, req.intents, f.times[w]) == Ok(s.db.intents)
  }

  /** Nobody has committed: every writer saw the state the race began with. */
  predicate Undecided(f: Field, db: Db, s: State) {
    && s.db == db
    && (forall i :: 0 <= i < |s.phases| ==> Early(f, db, s.phases[i]))
    && (forall i, j :: 0 <= i < j < |s.phases| ==> !(Locks(s.phases[i]) && Locks(s.phases[j])))
    && (forall i, j :: 0 <= i < j < |s.phases| ==> !(s.phases[i].Inserted? && s.phases[j].Inserted?))
  }

  predicate Early(f: Field, db: Db, p: Phase) {
    match p
    case Idle => true
    case SawHead(h) => h == HeadOf(db.heads, f.key)
    case SawRow(h, r) => h == HeadOf(db.heads, f.key) && r == None
    case Inserted(h) => h == HeadOf(db.heads, f.key)
    case Done(_) => false
  }

  /** Writer `w` has committed; every other has lost or is about to. */
  ghost predicate Decided(f: Field, db: Db, hist: History, grid: Grid, s: State, w: nat)
    requires Running(f, s) && w < |f.reqs|
  {
    && WonBy(f, db, hist, grid, s, w)
    && s.phases[w] == Done(Ok(CommitResult(f.key, |RevsOf(hist, f.key)|, f.times[w], false)))
    && (forall j :: 0 <= j < |f.reqs| && j != w ==> Late(f, hist, s.db.log, w, j, s.phases[j]))
  }

  /** A loser saw no head or the winner's, and no row or the winner's. */
  predicate Late(f: Field, hist: History, log: Log, w: nat, j: nat, p: Phase)
    requires |f.times| == |f.reqs| && w < |f.reqs| && j < |f.reqs|
  {
    match p
    case Idle => true
    case SawHead(h) => SawWinnersHead(hist, f.key, h)
    case SawRow(h, r) =>
      SawWinnersHead(hist, f.key, h) && (r.Some? ==> r == RowOf(log, RowKey(f.key, |RevsOf(hist, f.key)|)))
    case Inserted(_) => false
    case Done(o) => Loses(f, hist, w, j, o)
  }

  /** A loser gets RevisionConflict; only one whose content is the winner's may be
      told instead that it was replayed. */
  predicate Loses(f: Field, hist: History, w: nat, j: nat, outcome: Result<CommitResult>)
    requires |f.times| == |f.reqs| && w < |f.reqs| && j < |f.reqs|
  {
    || outcome == Err(RevisionConflict)
    || (SameContent(f, w, j) && outcome == Ok(CommitResult(f.key, |RevsOf(hist, f.key)|, f.times[j], true)))
  }

  predicate SawWinnersHead(hist: History, key: Key, h: Option<Head>) {
    h.Some? ==> h.value.rev == |RevsOf(hist, key)|
  }

  lemma ContenderFacts(f: Field, db: Db, hist: History, grid: Grid, i: nat)
    requires Contended(f, db, hist, grid) && i < |f.reqs|
    ensures f.reqs[i].key == f.key && Planned(f.reqs[i]) && RowAllowed(f.reqs[i])
    ensures ExpectedHolds(RevsOf(hist, f.key), f.reqs[i])
    ensures TargetKey(f.reqs[i]) == RowKey(f.key, |RevsOf(hist, f.key)|)
    ensures RowKey(f.key, |RevsOf(hist, f.key)|) !in db.log
    ensures Decide(HeadOf(db.heads, f.key), None, f.reqs[i]) == Append(HeadOf(db.heads, f.key))
    ensures Reproducible(f.enc, RevsOf(hist, f.key), f.reqs[i])
    ensures InsertIntents(db.intents, f.reqs[i].intents, f.times[i]).Ok?
  {
    hide Agrees, OnGrid, Reproducible, InsertIntents, Planned;
    assert Contends(f, db, hist, i);
    TablesAt(db, hist, grid, f.key, |RevsOf(hist, f.key)|);
  }

  /** The first commit of an undecided race succeeds and decides it. */
  lemma CommitDecides(f: Field, db: Db, hist: History, grid: Grid, s: State, i: nat)
    requires Contended(f, db, hist, grid) && Running(f, s) && Undecided(f, db, s)
    requires Enabled(f, s, Commit(i))
    ensures Decided(f, db, hist, grid, After(f, s, Commit(i)), i)
  {
    hide Agrees, OnGrid, Reproducible, InsertIntents, Planned, AppendRow, NewRow, RowAllowed;
    ContenderFacts(f, db, hist, grid, i);
    AppendFollowsHistory(db, hist, grid, f.enc, f.reqs[i], f.times[i]);
    var after := After(f, s, Commit(i));
    assert WonBy(f, db, hist, grid, after, i);
    forall j | 0 <= j < |f.reqs| && j != i ensures Late(f, hist, after.db.log, i, j, after.phases[j]) {
      assert Early(f, db, s.phases[i]) && Early(f, db, s.phases[j]);
      assert !(Locks(s.phases[i]) && Locks(s.phases[j])) by {
        if j < i { assert !(Locks(s.phases[j]) && Locks(s.phases[i])); }
      }
    }
  }

  lemma UndecidedStep(f: Field, db: Db, hist: History, grid: Grid, s: State, step: Step)
    requires Contended(f, db, hist, grid) && Running(f, s) && Undecided(f, db, s)
    requires Enabled(f, s, step) && !step.Commit?
    ensures Undecided(f, db, After(f, s, step))
  {
    hide Contended, RowAllowed, Planned, Reproducible, InsertIntents, RepairFrom, ExpectedHolds, Decide, HeadIsFree;
    ContenderFacts(f, db, hist, grid, step.i);
    forall j | 0 <= j < |f.reqs| ensures TargetKey(f.reqs[j]) == TargetKey(f.reqs[step.i]) {
      ContenderFacts(f, db, hist, grid, j);
    }
    assert Early(f, db, s.phases[step.i]);
  }

  lemma DecidedStep(f: Field, db: Db, hist: History, grid: Grid, s: State, w: nat, step: Step)
    requires Contended(f, db, hist, grid) && Running(f, s) && w < |f.reqs|
    requires Decided(f, db, hist, grid, s, w) && Enabled(f, s, step)
    ensures Decided(f, db, hist, grid, After(f, s, step), w)
  {
    hide Contended, Agrees, RowAllowed, Planned, Reproducible, InsertIntents, RepairFrom, NewRow, AppendRow;
    hide AfterInsert, SameRevision;
    var i := step.i;
    assert i != w && Late(f, hist, s.db.log, w, i, s.phases[i]);
    ContenderFacts(f, db, hist, grid, i);
    WinnersTables(f, db, hist, grid, s, w);
    if step.Insert? {
      LoserLoses(f, db, hist, grid, s, w, i);
    }
    var after := After(f, s, step);
    assert after.db == s.db && Late(f, hist, s.db.log, w, i, after.phases[i]);
  }

  /** What the winner left in the tables. */
  lemma WinnersTables(f: Field, db: Db, hist: History, grid: Grid, s: State, w: nat)
    requires Contended(f, db, hist, grid) && w < |f.reqs| && WonBy(f, db, hist, grid, s, w)
    ensures SawWinnersHead(hist, f.key, HeadOf(s.db.heads, f.key))
    ensures RowKey(f.key, |RevsOf(hist, f.key)|) in s.db.log
    ensures RowMatches(s.db.log[RowKey(f.key, |RevsOf(hist, f.key)|)], RevisionOf(f.reqs[w], f.times[w]))
  {
    hide Agrees, PhysicalPayload, RowMatches;
    TablesAt(s.db, hist[f.key := RevsOf(hist, f.key) + [RevisionOf(f.reqs[w], f.times[w])]], grid, f.key,
             |RevsOf(hist, f.key)|);
  }

  /** Repairing the winner's head from the winner's row writes what is there. */
  lemma RepairOfTipIsNoOp(f: Field, db: Db, hist: History, grid: Grid, s: State, w: nat, head: Option<Head>)
    requires Contended(f, db, hist, grid) && w < |f.reqs| && WonBy(f, db, hist, grid, s, w)
    ensures RowKey(f.key, |RevsOf(hist, f.key)|) in s.db.log
    ensures var rk := RowKey(f.key, |RevsOf(hist, f.key)|);
      RepairFrom(s.db, f.enc, head, rk, s.db.log[rk]) == Ok(s.db)
  {
    hide OnGrid, PhysicalPayload, Decoded, LogAgrees, HeadsAgree, WonBy;
    var hist' := hist[f.key := RevsOf(hist, f.key) + [RevisionOf(f.reqs[w], f.times[w])]];
    var n := |RevsOf(hist, f.key)|;
    WinnerAgrees(f, db, hist, grid, s, w);
    TablesAt(s.db, hist', grid, f.key, n);
    ReadsAgree(s.db.log, hist', grid, f.enc, f.key, n);
    var rk := RowKey(f.key, n);
    assert HeadFromRow(rk, s.db.log[rk], hist'[f.key][n].doc) == s.db.heads[f.key];
    assert s.db.heads[f.key := s.db.heads[f.key]] == s.db.heads;
  }

  lemma WinnerAgrees(f: Field, db: Db, hist: History, grid: Grid, s: State, w: nat)
    requires Contended(f, db, hist, grid) && w < |f.reqs| && WonBy(f, db, hist, grid, s, w)
    ensures Agrees(s.db, hist[f.key := RevsOf(hist, f.key) + [RevisionOf(f.reqs[w], f.times[w])]], grid)
  {
    hide Agrees;
  }

  /** A loser that reaches its insert loses, and changes nothing. */
  lemma LoserLoses(f: Field, db: Db, hist: History, grid: Grid, s: State, w: nat, i: nat)
    requires Contended(f, db, hist, grid) && Running(f, s) && w < |f.reqs| && i < |f.reqs| && i != w
    requires Decided(f, db, hist, grid, s, w) && s.phases[i].SawRow?
    ensures var (after, phase) := AfterInsert(f, s.db, s.phases[i].head, s.phases[i].row, f.reqs[i], f.times[i]);
      after == s.db && phase.Done? && Loses(f, hist, w, i, phase.outcome)
  {
    hide Agrees, Planned, Reproducible, InsertIntents, RepairFrom, NewRow, AppendRow, DocEq;
    assert Late(f, hist, s.db.log, w, i, s.phases[i]);
    ContenderFacts(f, db, hist, grid, i);
    WinnersTables(f, db, hist, grid, s, w);
    RepairOfTipIsNoOp(f, db, hist, grid, s, w, s.phases[i].head);
  }

  /** Every interleaving is undecided, or decided by one writer. */
  lemma {:induction false} RaceInvariant(f: Field, db: Db, hist: History, grid: Grid, steps: seq<Step>, s: State)
    requires Contended(f, db, hist, grid) && Interleaves(f, db, steps, s)
    ensures Running(f, s)
    ensures Undecided(f, db, s) || exists w :: 0 <= w < |f.reqs| && Decided(f, db, hist, grid, s, w)
    decreases |steps|
  {
    hide Contended, Undecided, Decided, Move;
    if steps == [] {
      StartUndecided(f, db, hist, grid);
    } else {
      var front, last := steps[..|steps| - 1], steps[|steps| - 1];
      var mid :| Interleaves(f, db, front, mid) && Running(f, mid) && Enabled(f, mid, last) && s == After(f, mid, last);
      RaceInvariant(f, db, hist, grid, front, mid);
      if Undecided(f, db, mid) {
        if last.Commit? {
          CommitDecides(f, db, hist, grid, mid, last.i);
        } else {
          UndecidedStep(f, db, hist, grid, mid, last);
        }
      } else {
        var w :| 0 <= w < |f.reqs| && Decided(f, db, hist, grid, mid, w);
        DecidedStep(f, db, hist, grid, mid, w, last);
      }
    }
  }

  lemma StartUndecided(f: Field, db: Db, hist: History, grid: Grid)
    requires Contended(f, db, hist, grid)
    ensures Running(f, Start(f, db)) && Undecided(f, db, Start(f, db))
  {
  }

  lemma UndecidedIsUnfinished(f: Field, db: Db, s: State)
    requires Undecided(f, db, s) && s.phases != []
    ensures !AllDone(s)
  {
    assert Early(f, db, s.phases[0]);
  }

  /** One winner per revision: when all have run, in any interleaving, exactly one
      row was appended, its writer was told so, and every other writer left nothing
      behind and lost. */
  lemma OneWinner(f: Field, db: Db, hist: History, grid: Grid, steps: seq<Step>, s: State) returns (w: nat)
    requires Contended(f, db, hist, grid) && f.reqs != []
    requires Interleaves(f, db, steps, s) && AllDone(s)
    ensures w < |f.reqs| == |s.phases| && WonBy(f, db, hist, grid, s, w)
    ensures s.phases[w] == Done(Ok(CommitResult(f.key, |RevsOf(hist, f.key)|, f.times[w], false)))
    ensures forall j :: 0 <= j < |f.reqs| && j != w ==>
      s.phases[j].Done? && Loses(f, hist, w, j, s.phases[j].outcome)
  {
    hide Contended, WonBy, Loses;
    RaceInvariant(f, db, hist, grid, steps, s);
    if Undecided(f, db, s) { UndecidedIsUnfinished(f, db, s); }
    w :| 0 <= w < |f.reqs| && Decided(f, db, hist, grid, s, w);
    forall j | 0 <= j < |f.reqs| && j != w
      ensures s.phases[j].Done? && Loses(f, hist, w, j, s.phases[j].outcome)
    {
      assert Late(f, hist, s.db.log, w, j, s.phases[j]);
    }
  }

  /** Where contents differ pairwise, in payload, metadata, kind or versions, every
      loser gets RevisionConflict. */
  lemma DifferentContentsConflict(f: Field, db: Db, hist: History, grid: Grid, steps: seq<Step>, s: State)
      returns (w: nat)
    requires Contended(f, db, hist, grid) && f.reqs != []
    requires forall i, j :: 0 <= i < |f.reqs| && 0 <= j < |f.reqs| && i != j ==> !SameContent(f, i, j)
    requires Interleaves(f, db, steps, s) && AllDone(s)
    ensures w < |f.reqs| == |s.phases| && WonBy(f, db, hist, grid, s, w)
    ensures s.phases[w] == Done(Ok(CommitResult(f.key, |RevsOf(hist, f.key)|, f.times[w], false)))
    ensures forall j :: 0 <= j < |f.reqs| && j != w ==> s.phases[j] == Done(Err(RevisionConflict))
  {
    hide Contended, WonBy, SameContent;
    w := OneWinner(f, db, hist, grid, steps, s);
    forall j | 0 <= j < |f.reqs| && j != w ensures s.phases[j] == Done(Err(RevisionConflict)) {
      assert !SameContent(f, w, j);
    }
  }

  // -------------------------------------------------- every race runs to its end

  /** At most one writer has the head row locked, and then there is one. */
  ghost predicate OneLock(f: Field, s: State) {
    && (forall i, j :: 0 <= i < |s.phases| && 0 <= j < |s.phases| && i != j ==>
          !(Locks(s.phases[i]) && Locks(s.phases[j])))
    && (forall i :: 0 <= i < |s.phases| && Locks(s.phases[i]) ==> f.key in s.db.heads)
  }

  lemma StepKeepsOneLock(f: Field, s: State, step: Step)
    requires Running(f, s) && OneLock(f, s) && Enabled(f, s, step)
    ensures OneLock(f, After(f, s, step))
  {
    hide RowAllowed, Decoded, NewRow, InsertIntents, RecordFingerprint, Identical;
  }

  lemma {:induction false} LocksAreExclusive(f: Field, db: Db, steps: seq<Step>, s: State)
    requires Interleaves(f, db, steps, s)
    ensures OneLock(f, s)
    decreases |steps|
  {
    hide Move, Enabled, OneLock;
    if steps == [] {
      NothingLocked(f, db);
    } else {
      var front, last := steps[..|steps| - 1], steps[|steps| - 1];
      var mid :| Interleaves(f, db, front, mid) && Running(f, mid) && Enabled(f, mid, last) && s == After(f, mid, last);
      LocksAreExclusive(f, db, front, mid);
      StepKeepsOneLock(f, mid, last);
    }
  }

  lemma NothingLocked(f: Field, db: Db)
    ensures OneLock(f, Start(f, db))
  {
  }

  /** No interleaving gets stuck, whatever the requests: while a writer is not done,
      some step is enabled. */
  lemma RaceNeverStuck(f: Field, db: Db, steps: seq<Step>, s: State) returns (step: Step)
    requires Interleaves(f, db, steps, s) && Running(f, s) && !AllDone(s)
    ensures Enabled(f, s, step)
  {
    hide Interleaves, Decide;
    LocksAreExclusive(f, db, steps, s);
    if i :| 0 <= i < |s.phases| && s.phases[i].Inserted? { return Commit(i); }
    if i :| 0 <= i < |s.phases| && s.phases[i].SawHead? { return ReadRow(i); }
    if i :| 0 <= i < |s.phases| && s.phases[i].SawRow? && Locks(s.phases[i]) {
      return Insert(i);
    }
    if i :| 0 <= i < |s.phases| && s.phases[i].SawRow? { return Insert(i); }
    var i :| 0 <= i < |s.phases| && !s.phases[i].Done?;
    return ReadHead(i);
  }

  function StepsLeft(p: Phase): nat {
    match p
    case Idle => 4
    case SawHead(_) => 3
    case SawRow(_, _) => 2
    case Inserted(_) => 1
    case Done(_) => 0
  }

  function TotalLeft(phases: seq<Phase>): nat {
    if phases == [] then 0 else TotalLeft(phases[..|phases| - 1]) + StepsLeft(phases[|phases| - 1])
  }

  lemma {:induction false} AdvanceOne(phases: seq<Phase>, i: nat, p: Phase)
    requires i < |phases| && StepsLeft(p) < StepsLeft(phases[i])
    ensures TotalLeft(phases[i := p]) < TotalLeft(phases)
    decreases |phases|
  {
    var n := |phases| - 1;
    if i < n {
      AdvanceOne(phases[..n], i, p);
      assert phases[i := p][..n] == phases[..n][i := p];
    } else {
      assert phases[i := p][..n] == phases[..n];
    }
  }

  lemma {:induction false} AllIdle(n: nat)
    ensures TotalLeft(seq(n, _ => Idle)) == 4 * n
  {
    if n > 0 {
      AllIdle(n - 1);
      assert seq(n, _ => Idle)[..n - 1] == seq(n - 1, _ => Idle);
    }
  }

  /** No writer takes more than four steps, so every interleaving ends. */
  lemma {:induction false} RaceIsBounded(f: Field, db: Db, steps: seq<Step>, s: State)
    requires Interleaves(f, db, steps, s)
    ensures |steps| + TotalLeft(s.phases) <= 4 * |f.reqs|
    decreases |steps|
  {
    hide TotalLeft, AfterInsert, AfterCommit;
    if steps == [] {
      AllIdle(|f.reqs|);
    } else {
      var front, last := steps[..|steps| - 1], steps[|steps| - 1];
      var mid :| Interleaves(f, db, front, mid) && Running(f, mid) && Enabled(f, mid, last) && s == After(f, mid, last);
      RaceIsBounded(f, db, front, mid);
      StepAdvances(f, mid, last);
      AdvanceOne(mid.phases, last.i, s.phases[last.i]);
    }
  }

  lemma StepAdvances(f: Field, s: State, step: Step)
    requires Running(f, s) && Enabled(f, s, step)
    ensures StepsLeft(Move(f, s, step).1) < StepsLeft(s.phases[step.i])
  {
  }
}
