/** Reading a logical document back from physical log rows: the bounded window
    decode of the store, and the full log fold it must agree with. */
module LogReads {
  import opened Results
  import opened JsonValues
  import opened DeltaEncoding
  import opened Tables

  /** A selected row together with its revision column. */
  datatype RevRow = RevRow(rev: int, row: Row)

  /** `select_window`: the rows of one aggregate in `lo..hi`, in revision order. */
  function Window(log: Log, key: Key, lo: int, hi: int): (w: seq<RevRow>)
    decreases hi - lo
  {
    if lo > hi then []
    else
      var before := Window(log, key, lo, hi - 1);
      if RowKey(key, hi) in log then before + [RevRow(hi, log[RowKey(key, hi)])] else before
  }

  /** The logged revisions of an aggregate. */
  function RevisionsOf(log: Log, key: Key): set<int> {
    set rk | rk in log && rk.key == key :: rk.rev
  }

  /** A window holds exactly the logged rows of its range, in ascending revision
      order, so at most one per revision. */
  lemma {:induction false} WindowRows(log: Log, key: Key, lo: int, hi: int)
    ensures var w := Window(log, key, lo, hi);
      && Ascending(w)
      && (forall i :: 0 <= i < |w| ==> lo <= w[i].rev <= hi && RowOf(log, RowKey(key, w[i].rev)) == Some(w[i].row))
      && (forall r :: lo <= r <= hi && RowKey(key, r) in log ==> RevRow(r, log[RowKey(key, r)]) in w)
      && |w| <= Max(0, hi - lo + 1)
    decreases hi - lo
  {
    if lo <= hi { WindowRows(log, key, lo, hi - 1); }
  }

  predicate Ascending(w: seq<RevRow>) {
    forall i, j :: 0 <= i < j < |w| ==> w[i].rev < w[j].rev
  }

  /** One step of the full fold (`_accumulate_into`). */
  function Accumulate(doc: Doc, row: Row): Doc {
    match row.payload
    case Full(d) => d
    case Delta(p) => Decode(p, doc)
  }

  /** The full log fold: every row, oldest first. */
  function Fold(w: seq<RevRow>): Doc {
    if w == [] then map[] else Accumulate(Fold(w[..|w| - 1]), w[|w| - 1].row)
  }

  /** What a window decodes to at its last row: a full row is itself, a patch is
      applied to what its recorded base decodes to, and the base must be the row
      before it in the window. */
  function Chase(w: seq<RevRow>): Result<Doc>
    requires w != []
  {
    var last := w[|w| - 1];
    match last.row.payload
    case Full(d) => Ok(d)
    case Delta(p) =>
      if |w| == 1 then Err(UndecodableRevision)
      else
        var base :- Chase(w[..|w| - 1]);
        if p.base != w[|w| - 2].rev then Err(UndecodableRevision) else Ok(Decode(p, base))
  }

  function DecodedWindow(w: seq<RevRow>, revision: int): Result<Doc> {
    if w == [] || w[|w| - 1].rev != revision then Err(NotFound) else Chase(w)
  }

  /** `_decode_window`: find the last checkpoint, then apply the patches after it. */
  method DecodeWindow(w: seq<RevRow>, revision: int) returns (r: Result<Doc>)
    requires Ascending(w)
    ensures r == DecodedWindow(w, revision)
  {
    if w == [] || w[|w| - 1].rev != revision {
      return Err(NotFound);
    }
    var c := |w|;
    while c > 0 && !w[c - 1].row.payload.Full?
      invariant 0 <= c <= |w|
      invariant forall i :: c <= i < |w| ==> w[i].row.payload.Delta?
    {
      c := c - 1;
    }
    if c == 0 {
      NoCheckpointFails(w);
      return Err(UndecodableRevision);
    }
    var checkpoint := w[c - 1];
    var doc := checkpoint.row.payload.doc;
    var prev := checkpoint.rev;
    var i := 0;
    while i < |w|
      invariant 0 <= i <= |w|
      invariant i <= c ==> doc == checkpoint.row.payload.doc && prev == checkpoint.rev
      invariant i >= c ==> Chase(w[..i]) == Ok(doc) && prev == w[i - 1].rev
    {
      var r0 := w[i];
      if r0.rev <= checkpoint.rev {
        assert i <= c - 1;
        if i == c - 1 { assert w[..i + 1][|w[..i + 1]| - 1] == checkpoint; }
      } else {
        assert i >= c && w[..i + 1][..i] == w[..i];
        match r0.row.payload {
          case Full(d) => doc := d; prev := r0.rev;
          case Delta(p) =>
            if p.base != prev {
              BreakPropagates(w, i + 1);
              return Err(UndecodableRevision);
            }
            doc := DecodeInPlace(p, doc);
            prev := r0.rev;
        }
      }
      i := i + 1;
    }
    assert w[..|w|] == w;
    return Ok(doc);
  }

  lemma {:induction false} NoCheckpointFails(w: seq<RevRow>)
    requires w != [] && forall i :: 0 <= i < |w| ==> w[i].row.payload.Delta?
    ensures Chase(w) == Err(UndecodableRevision)
  {
    if |w| > 1 { NoCheckpointFails(w[..|w| - 1]); }
  }

  /** A broken base chain before a run of patches breaks the whole window. */
  lemma {:induction false} BreakPropagates(w: seq<RevRow>, n: nat)
    requires 0 < n <= |w| && Chase(w[..n]) == Err(UndecodableRevision)
    requires forall i :: n <= i < |w| ==> w[i].row.payload.Delta?
    ensures Chase(w) == Err(UndecodableRevision)
    decreases |w|
  {
    if n < |w| {
      assert w[..|w| - 1][..n] == w[..n];
      BreakPropagates(w[..|w| - 1], n);
    } else {
      assert w[..n] == w;
    }
  }

  // ------------------------------------------------------------ the read paths

  function Max(a: int, b: int): int {
    if a >= b then a else b
  }

  /** Where the configured-delta read starts its window. */
  function WindowStart(every: nat, revision: int): int
    requires every >= 1
  {
    if IsCheckpoint(every, revision) then revision else Max(0, revision - every)
  }

  /** The row's own `every` decides the window when the stream is not configured as delta. */
  function DecodedByRow(log: Log, key: Key, revision: int): Result<Doc> {
    var rk := RowKey(key, revision);
    if rk !in log then Err(NotFound)
    else
      match log[rk].payload
      case Full(d) => Ok(d)
      case Delta(p) => DecodedWindow(Window(log, key, Max(0, revision - SpanOf(p)), revision), revision)
  }

  /** The window holds the logged rows of these revisions, each once, in order. */
  ghost predicate HoldsRows(w: seq<RevRow>, log: Log, key: Key, lo: int, hi: int) {
    Ascending(w) && forall x :: x in w <==> lo <= x.rev <= hi && RowOf(log, RowKey(key, x.rev)) == Some(x.row)
  }

  /** `_decode_log_revision` */
  function Decoded(log: Log, enc: Encodings, key: Key, revision: int): Result<Doc>
    requires ValidEncodings(enc)
  {
    match EncodingFor(enc, key.stream)
    case DeltaEncoded(every) =>
      DecodedWindow(Window(log, key, WindowStart(every, revision), revision), revision)
    case SnapshotEncoding => DecodedByRow(log, key, revision)
  }

  lemma WindowHoldsRows(log: Log, key: Key, lo: int, hi: int)
    ensures HoldsRows(Window(log, key, lo, hi), log, key, lo, hi)
  {
    WindowRows(log, key, lo, hi);
    var w := Window(log, key, lo, hi);
    hide Window;
    forall x: RevRow | lo <= x.rev <= hi && RowOf(log, RowKey(key, x.rev)) == Some(x.row) ensures x in w {
      assert x == RevRow(x.rev, log[RowKey(key, x.rev)]);
    }
  }

  /** A row's own read, which is what a stream not configured as delta gets: a full
      row is its document, and a patch decodes the rows of as many revisions back as
      it says, of twenty if it says nothing, never before revision 0. */
  lemma RowReadWindow(log: Log, enc: Encodings, key: Key, r: int)
    requires ValidEncodings(enc)
    ensures EncodingFor(enc, key.stream).SnapshotEncoding? ==> Decoded(log, enc, key, r) == DecodedByRow(log, key, r)
    ensures match RowOf(log, RowKey(key, r))
      case None => DecodedByRow(log, key, r) == Err(NotFound)
      case Some(row) =>
        match row.payload
        case Full(d) => DecodedByRow(log, key, r) == Ok(d)
        case Delta(p) =>
          var span := if p.every == 0 then 20 else p.every;
          var lo := Max(0, r - span);
          exists w :: HoldsRows(w, log, key, lo, r) && DecodedByRow(log, key, r) == DecodedWindow(w, r)
  {
    if RowKey(key, r) in log && log[RowKey(key, r)].payload.Delta? {
      var lo := Max(0, r - SpanOf(log[RowKey(key, r)].payload.patch));
      WindowHoldsRows(log, key, lo, r);
      hide Window, DecodedWindow, HoldsRows;
      assert DecodedByRow(log, key, r) == DecodedWindow(Window(log, key, lo, r), r);
    }
  }

  /** A configured read of a checkpoint decodes that row alone, and of any other
      revision the rows of `every` revisions back, never before revision 0. */
  lemma ConfiguredReadWindow(log: Log, enc: Encodings, key: Key, every: nat, r: int)
    requires ValidEncodings(enc) && every >= 1 && EncodingFor(enc, key.stream) == DeltaEncoded(every)
    ensures var lo := if r == 0 || r % every == 0 then r else Max(0, r - every);
      exists w :: HoldsRows(w, log, key, lo, r) && Decoded(log, enc, key, r) == DecodedWindow(w, r)
  {
    WindowHoldsRows(log, key, WindowStart(every, r), r);
    hide Window, DecodedWindow, HoldsRows;
    assert Decoded(log, enc, key, r) == DecodedWindow(Window(log, key, WindowStart(every, r), r), r);
  }

  /** The reference reading: fold every row from 0 to `revision`. */
  function FullFold(log: Log, key: Key, revision: int): Doc {
    Fold(Window(log, key, 0, revision))
  }

  // ------------------------------------------------ fast reads refine the fold

  /** A decodable window agrees with the fold of any longer run that ends with it. */
  lemma {:induction false} ChaseIsFold(before: seq<RevRow>, w: seq<RevRow>)
    requires w != [] && Chase(w).Ok?
    ensures Fold(before + w) == Chase(w).value
    decreases |w|
  {
    var whole := before + w;
    assert whole[|whole| - 1] == w[|w| - 1];
    if w[|w| - 1].row.payload.Delta? {
      ChaseIsFold(before, w[..|w| - 1]);
      assert whole[..|whole| - 1] == before + w[..|w| - 1];
    }
  }

  /** A full row, and after it only patches, each based on the row before it. */
  predicate ChainedFrom(w: seq<RevRow>, c: nat) {
    && c < |w| && w[c].row.payload.Full?
    && forall i :: c < i < |w| ==> w[i].row.payload.Delta? && w[i].row.payload.patch.base == w[i - 1].rev
  }

  ghost predicate Chained(w: seq<RevRow>) {
    exists c: nat :: ChainedFrom(w, c)
  }

  lemma ChainedNext(w: seq<RevRow>)
    requires w != []
    ensures var n := |w| - 1;
      Chained(w) <==>
        match w[n].row.payload
        case Full(_) => true
        case Delta(p) => n > 0 && p.base == w[n - 1].rev && Chained(w[..n])
  {
    var n := |w| - 1;
    var front := w[..n];
    if w[n].row.payload.Full? {
      assert ChainedFrom(w, n);
    } else if n > 0 {
      if c: nat :| ChainedFrom(front, c) && w[n].row.payload.patch.base == w[n - 1].rev { assert ChainedFrom(w, c); }
      if c: nat :| ChainedFrom(w, c) { assert ChainedFrom(front, c); }
    }
  }

  lemma {:induction false} ChaseIffChained(w: seq<RevRow>)
    requires w != []
    ensures Chase(w) == if Chained(w) then Ok(Fold(w)) else Err(UndecodableRevision)
    decreases |w|
  {
    hide Chained;
    ChainedNext(w);
    if |w| > 1 { ChaseIffChained(w[..|w| - 1]); }
  }

  /** What a window decodes to, whatever rows it holds: it must end at the revision
      asked for, and end in a chain of patches that starts at a full row; then it is
      the fold of its rows. */
  lemma DecodesIffChained(w: seq<RevRow>, revision: int)
    ensures DecodedWindow(w, revision)
      == if w == [] || w[|w| - 1].rev != revision then Err(NotFound)
         else if exists c: nat :: ChainedFrom(w, c) then Ok(Fold(w)) else Err(UndecodableRevision)
  {
    if w != [] { ChaseIffChained(w); }
  }

  lemma {:induction false} WindowSplits(log: Log, key: Key, lo: int, mid: int, hi: int)
    requires lo <= mid <= hi + 1
    ensures Window(log, key, lo, hi) == Window(log, key, lo, mid - 1) + Window(log, key, mid, hi)
    decreases hi - mid
  {
    var front := Window(log, key, lo, mid - 1);
    if mid <= hi {
      WindowSplits(log, key, lo, mid, hi - 1);
      var back := Window(log, key, mid, hi - 1);
      if RowKey(key, hi) in log {
        var last := [RevRow(hi, log[RowKey(key, hi)])];
        assert front + back + last == front + (back + last);
      }
    } else {
      assert Window(log, key, mid, hi) == [] && mid - 1 == hi;
    }
  }

  lemma DecodableWindowIsFullFold(log: Log, key: Key, lo: int, revision: int)
    requires 0 <= lo <= revision
    requires DecodedWindow(Window(log, key, lo, revision), revision).Ok?
    ensures DecodedWindow(Window(log, key, lo, revision), revision).value == FullFold(log, key, revision)
  {
    WindowSplits(log, key, 0, lo, revision);
    ChaseIsFold(Window(log, key, 0, lo - 1), Window(log, key, lo, revision));
  }

  /** The shape every aggregate's log keeps: revisions 0..n-1 all present, each
      patch based on the revision before it and never at a multiple of its own
      `every`, each patch's `every` a multiple of those of the patches before it,
      and `grid` a multiple of them all. */
  ghost predicate Gridded(log: Log, key: Key, n: nat, grid: nat) {
    && grid >= 1
    && (forall r :: 0 <= r < n ==> Placed(log, key, r, grid))
    && (forall c, r :: 0 <= c < r < n ==> Nested(log, key, c, r))
  }

  ghost predicate Placed(log: Log, key: Key, r: int, grid: nat)
    requires grid >= 1
  {
    && RowKey(key, r) in log
    && match log[RowKey(key, r)].payload
       case Full(_) => true
       case Delta(p) => p.base == r - 1 && p.every >= 1 && r % p.every != 0 && grid % p.every == 0
  }

  ghost predicate Nested(log: Log, key: Key, c: int, r: int) {
    PatchAt(log, key, c) && PatchAt(log, key, r) && EveryAt(log, key, c) >= 1 ==>
      EveryAt(log, key, r) % EveryAt(log, key, c) == 0
  }

  predicate PatchAt(log: Log, key: Key, r: int) {
    RowKey(key, r) in log && log[RowKey(key, r)].payload.Delta?
  }

  function EveryAt(log: Log, key: Key, r: int): nat
    requires PatchAt(log, key, r)
  {
    log[RowKey(key, r)].payload.patch.every
  }

  lemma MultipleOfMultiple(a: nat, b: nat, c: nat)
    requires b >= 1 && c >= 1 && a % b == 0 && b % c == 0
    ensures a % c == 0
  {
    var q, s := a / b, b / c;
    assert a == q * b && b == s * c;
    assert a == (q * s) * c by { assert q * (s * c) == (q * s) * c; }
    ModOfProduct(q * s, c);
  }

  lemma ModOfProduct(k: nat, c: nat)
    requires c >= 1
    ensures (k * c) % c == 0
  {
    var q, m := (k * c) / c, (k * c) % c;
    assert (k - q) * c == m;
    SmallMultiple(k - q, c);
  }

  lemma SmallMultiple(x: int, c: nat)
    requires 0 <= x * c < c
    ensures x == 0
  {
  }

  /** A window whose rows are all there decodes once it contains a full row. */
  lemma {:induction false} WindowDecodes(log: Log, key: Key, n: nat, grid: nat, lo: int, c: int, r: int)
    requires Gridded(log, key, n, grid) && 0 <= lo <= c <= r < n
    requires !PatchAt(log, key, c)
    ensures DecodedWindow(Window(log, key, lo, r), r).Ok?
    decreases r - c
  {
    assert Placed(log, key, r, grid);
    var w := Window(log, key, lo, r);
    assert w[|w| - 1].row == log[RowKey(key, r)];
    if PatchAt(log, key, r) {
      assert c < r;
      WindowDecodes(log, key, n, grid, lo, c, r - 1);
      assert w[..|w| - 1] == Window(log, key, lo, r - 1);
    }
  }

  /** A row that every patch up to it was written on a divisor of is full at
      each multiple of that span. */
  lemma MultiplesAreFull(log: Log, key: Key, n: nat, grid: nat, span: nat, c: int)
    requires Gridded(log, key, n, grid) && 0 <= c < n && span >= 1 && c % span == 0
    requires PatchAt(log, key, c) ==> EveryAt(log, key, c) >= 1 ==> span % EveryAt(log, key, c) == 0
    ensures !PatchAt(log, key, c)
  {
    assert Placed(log, key, c, grid);
    if PatchAt(log, key, c) {
      MultipleOfMultiple(c, span, EveryAt(log, key, c));
    }
  }

  /** A window that reaches back `span` revisions contains a multiple of `span`,
      and that row is full when no patch up to `r` sits on a multiple of `span`. */
  lemma SpanDecodes(log: Log, key: Key, n: nat, grid: nat, span: nat, r: int)
    requires Gridded(log, key, n, grid) && 0 <= r < n && span >= 1
    requires forall c :: 0 <= c <= r && PatchAt(log, key, c) && EveryAt(log, key, c) >= 1 ==>
      span % EveryAt(log, key, c) == 0
    ensures DecodedWindow(Window(log, key, Max(0, r - span), r), r).Ok?
  {
    var c := r - r % span;
    assert c % span == 0 by {
      assert c == (r / span) * span;
      ModOfProduct(r / span, span);
    }
    MultiplesAreFull(log, key, n, grid, span, c);
    WindowDecodes(log, key, n, grid, Max(0, r - span), c, r);
  }

  /** Reading by the row's own `every` returns the full fold. */
  lemma RowReadIsFullFold(log: Log, key: Key, n: nat, grid: nat, r: int)
    requires Gridded(log, key, n, grid) && 0 <= r < n
    ensures DecodedByRow(log, key, r) == Ok(FullFold(log, key, r))
  {
    assert Placed(log, key, r, grid);
    if PatchAt(log, key, r) {
      var every := EveryAt(log, key, r);
      forall c | 0 <= c <= r && PatchAt(log, key, c) && EveryAt(log, key, c) >= 1
        ensures every % EveryAt(log, key, c) == 0
      {
        if c < r { assert Nested(log, key, c, r); } else { assert every % every == 0; }
      }
      SpanDecodes(log, key, n, grid, every, r);
      DecodableWindowIsFullFold(log, key, Max(0, r - every), r);
    } else {
      FoldStep(log, key, r);
    }
  }

  /** Reading with window size `every` returns the full fold whenever `every` is
      a multiple of the grid the log was written on. */
  lemma ConfiguredReadIsFullFold(log: Log, key: Key, n: nat, grid: nat, every: nat, r: int)
    requires Gridded(log, key, n, grid) && 0 <= r < n && every >= 1 && every % grid == 0
    ensures DecodedWindow(Window(log, key, WindowStart(every, r), r), r) == Ok(FullFold(log, key, r))
  {
    forall c | 0 <= c <= r && PatchAt(log, key, c) && EveryAt(log, key, c) >= 1
      ensures every % EveryAt(log, key, c) == 0
    {
      assert Placed(log, key, c, grid);
      MultipleOfMultiple(every, grid, EveryAt(log, key, c));
    }
    if IsCheckpoint(every, r) {
      MultiplesAreFull(log, key, n, grid, every, r);
      WindowDecodes(log, key, n, grid, r, r, r);
    } else {
      SpanDecodes(log, key, n, grid, every, r);
    }
    DecodableWindowIsFullFold(log, key, WindowStart(every, r), r);
  }

  predicate FullRowIn(log: Log, key: Key, lo: int, hi: int) {
    exists r :: lo <= r <= hi && !PatchAt(log, key, r)
  }

  /** For any window size, a multiple of the grid or not: the read returns the
      full fold exactly when a full row lies in its window, and is undecodable
      otherwise. */
  lemma ReadSucceedsIffFullRowInWindow(log: Log, key: Key, n: nat, grid: nat, every: nat, r: int)
    requires Gridded(log, key, n, grid) && 0 <= r < n && every >= 1
    ensures DecodedWindow(Window(log, key, WindowStart(every, r), r), r)
      == if FullRowIn(log, key, WindowStart(every, r), r) then Ok(FullFold(log, key, r)) else Err(UndecodableRevision)
  {
    hide Gridded;
    var lo := WindowStart(every, r);
    if FullRowIn(log, key, lo, r) {
      var c :| lo <= c <= r && !PatchAt(log, key, c);
      WindowDecodes(log, key, n, grid, lo, c, r);
      DecodableWindowIsFullFold(log, key, lo, r);
    } else {
      WindowRows(log, key, lo, r);
      LastRow(log, key, n, grid, lo, r);
      var w := Window(log, key, lo, r);
      forall i | 0 <= i < |w| ensures w[i].row.payload.Delta? {
        assert PatchAt(log, key, w[i].rev) && RowOf(log, RowKey(key, w[i].rev)) == Some(w[i].row);
      }
      NoCheckpointFails(w);
    }
  }

  lemma LastRow(log: Log, key: Key, n: nat, grid: nat, lo: int, r: int)
    requires Gridded(log, key, n, grid) && 0 <= lo <= r < n
    ensures var w := Window(log, key, lo, r); w != [] && w[|w| - 1].rev == r
  {
    assert Placed(log, key, r, grid);
  }

  /** The configured read never looks at more than `every + 1` rows. */
  lemma ConfiguredReadIsBounded(log: Log, key: Key, every: nat, r: int)
    requires every >= 1 && r >= 0
    ensures |Window(log, key, WindowStart(every, r), r)| <= every + 1
  {
    WindowRows(log, key, WindowStart(every, r), r);
  }

  // ---------------------------------------------------------------- locality

  /** Adding rows elsewhere does not change a window. */
  lemma {:induction false} WindowFrame(log: Log, log': Log, key: Key, lo: int, hi: int)
    requires forall r :: lo <= r <= hi ==> RowOf(log, RowKey(key, r)) == RowOf(log', RowKey(key, r))
    ensures Window(log, key, lo, hi) == Window(log', key, lo, hi)
    decreases hi - lo
  {
    if lo <= hi {
      assert RowOf(log, RowKey(key, hi)) == RowOf(log', RowKey(key, hi));
      WindowFrame(log, log', key, lo, hi - 1);
    }
  }

  lemma FoldFrame(log: Log, rk: RowKey, row: Row, key: Key, r: int)
    requires key != rk.key || r < rk.rev
    ensures FullFold(log[rk := row], key, r) == FullFold(log, key, r)
  {
    WindowFrame(log, log[rk := row], key, 0, r);
  }

  /** The fold up to a logged row is one step on the fold before it. */
  lemma FoldStep(log: Log, key: Key, r: int)
    requires r >= 0 && RowKey(key, r) in log
    ensures FullFold(log, key, r) == Accumulate(FullFold(log, key, r - 1), log[RowKey(key, r)])
  {
  }

  lemma FoldBeforeFirst(log: Log, key: Key)
    ensures FullFold(log, key, -1) == map[]
  {
  }

  lemma GridFrame(log: Log, rk: RowKey, row: Row, key: Key, n: nat, grid: nat)
    requires Gridded(log, key, n, grid) && key != rk.key
    ensures Gridded(log[rk := row], key, n, grid)
  {
    var log' := log[rk := row];
    forall r | 0 <= r < n ensures Placed(log', key, r, grid) {
      assert Placed(log, key, r, grid);
    }
    forall c, r | 0 <= c < r < n ensures Nested(log', key, c, r) {
      assert Nested(log, key, c, r);
    }
  }

  /** A full row, or a patch on the grid itself, continues the grid. */
  lemma GridExtends(log: Log, key: Key, n: nat, grid: nat, row: Row)
    requires Gridded(log, key, n, grid)
    requires row.payload.Delta? ==>
      row.payload.patch.base == n - 1 && row.payload.patch.every == grid && n % grid != 0
    ensures Gridded(log[RowKey(key, n) := row], key, n + 1, grid)
  {
    var log' := log[RowKey(key, n) := row];
    assert grid % grid == 0;
    forall r | 0 <= r <= n ensures Placed(log', key, r, grid) {
      if r < n { assert Placed(log, key, r, grid); }
    }
    forall c, r | 0 <= c < r <= n ensures Nested(log', key, c, r) {
      assert Placed(log, key, c, grid);
      if r < n { assert Nested(log, key, c, r); }
    }
  }
}
