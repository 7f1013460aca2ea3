/** Schema evolution: validating an upcaster chain and applying it. */
module Evolution {
  import opened Results
  import opened JsonValues

  /** One declared transition; it is registered under its `from_version`. */
  datatype Upcaster = Upcaster(to: int, run: Doc -> Doc)

  type Upcasters = map<int, Upcaster>

  /** A complete chain: each version in the range is taken to the next one. */
  ghost predicate ChainOk(ups: Upcasters, lo: int, hi: int) {
    forall v :: lo <= v < hi ==> TakesToNext(ups, v)
  }

  predicate TakesToNext(ups: Upcasters, v: int) {
    v in ups && ups[v].to == v + 1
  }

  /** `validate_chain` accepts exactly the complete chains. */
  method ValidateChain(ups: Upcasters, from: int, target: int) returns (r: Result<()>)
    ensures r == if ChainOk(ups, from, target) then Ok(()) else Err(IncompleteUpcasterChain)
  {
    var version := from;
    while version < target
      invariant from <= version && (version <= target || version == from)
      invariant forall v :: from <= v < version ==> TakesToNext(ups, v)
      decreases target - version
    {
      if version !in ups {
        assert !TakesToNext(ups, version);
        return Err(IncompleteUpcasterChain);
      }
      if ups[version].to != version + 1 {
        assert !TakesToNext(ups, version);
        return Err(IncompleteUpcasterChain);
      }
      version := ups[version].to;
    }
    return Ok(());
  }

  // --------------------------------------------------------- the upcast loop

  /** The state of the upcast loop: at its head with a version and a tree, or raised. */
  datatype Loop = At(version: int, tree: Doc) | Raised

  /** One turn of the loop; the loop is over when its guard fails or it raised. */
  function Turn(ups: Upcasters, target: int, s: Loop): Loop {
    match s
    case Raised => Raised
    case At(version, tree) =>
      if version >= target then s
      else if version !in ups then Raised
      else At(ups[version].to, ups[version].run(tree))
  }

  function Turns(ups: Upcasters, target: int, s: Loop, k: nat): Loop {
    if k == 0 then s else Turn(ups, target, Turns(ups, target, s, k - 1))
  }

  predicate Over(target: int, s: Loop) {
    s.Raised? || s.version >= target
  }

  function Outcome(s: Loop): Result<Doc> {
    match s
    case Raised => Err(IncompleteUpcasterChain)
    case At(_, tree) => Ok(tree)
  }

  /** The reference meaning of a chain: steps lo..hi-1, first to last. */
  function Steps(ups: Upcasters, lo: int, hi: int, tree: Doc): Doc
    requires ChainOk(ups, lo, hi)
    decreases hi - lo
  {
    if lo >= hi then tree
    else
      assert TakesToNext(ups, hi - 1);
      ups[hi - 1].run(Steps(ups, lo, hi - 1, tree))
  }

  /** The loop is over within `k` turns: versions reach the target, or a gap. */
  ghost predicate EndsWithin(ups: Upcasters, version: int, target: int, k: nat)
    decreases k
  {
    version >= target || version !in ups || (k > 0 && EndsWithin(ups, ups[version].to, target, k - 1))
  }

  /** The loop ends, whatever tree it carries. */
  ghost predicate Ends(ups: Upcasters, version: int, target: int) {
    exists k: nat :: EndsWithin(ups, version, target, k)
  }

  /** What the loop returns, when it ends. */
  function Follow(ups: Upcasters, version: int, target: int, tree: Doc, ghost k: nat): Result<Doc>
    requires EndsWithin(ups, version, target, k)
    decreases k
  {
    if version >= target then Ok(tree)
    else if version !in ups then Err(IncompleteUpcasterChain)
    else Follow(ups, ups[version].to, target, ups[version].run(tree), k - 1)
  }

  function Upcasted(tree: Doc, ups: Upcasters, from: int, target: int): Result<Doc>
    requires Ends(ups, from, target)
  {
    ghost var k: nat :| EndsWithin(ups, from, target, k);
    Follow(ups, from, target, tree, k)
  }

  lemma {:induction false} TurnFirst(ups: Upcasters, target: int, s: Loop, k: nat)
    ensures Turns(ups, target, s, k + 1) == Turns(ups, target, Turn(ups, target, s), k)
  {
    if k > 0 { TurnFirst(ups, target, s, k - 1); }
  }

  /** Following is turning until the loop is over. */
  lemma {:induction false} FollowIsTurns(ups: Upcasters, version: int, target: int, tree: Doc, k: nat)
    requires EndsWithin(ups, version, target, k)
    ensures var s := Turns(ups, target, At(version, tree), k + 1);
      Over(target, s) && Outcome(s) == Follow(ups, version, target, tree, k)
    decreases k
  {
    TurnFirst(ups, target, At(version, tree), k);
    if version < target && version in ups {
      FollowIsTurns(ups, ups[version].to, target, ups[version].run(tree), k - 1);
    } else {
      StaysOver(ups, target, Turn(ups, target, At(version, tree)), k);
    }
  }

  lemma {:induction false} OverMeansEnds(ups: Upcasters, version: int, target: int, tree: Doc, k: nat)
    requires Over(target, Turns(ups, target, At(version, tree), k))
    ensures EndsWithin(ups, version, target, k)
    decreases k
  {
    if k > 0 && version < target && version in ups {
      TurnFirst(ups, target, At(version, tree), k - 1);
      OverMeansEnds(ups, ups[version].to, target, ups[version].run(tree), k - 1);
    }
  }

  /** `Ends` is exactly that the loop ends, from any tree. */
  lemma EndsIffLoopEnds(ups: Upcasters, version: int, target: int, tree: Doc)
    ensures Ends(ups, version, target) <==> exists k: nat :: Over(target, Turns(ups, target, At(version, tree), k))
  {
    if k: nat :| EndsWithin(ups, version, target, k) { FollowIsTurns(ups, version, target, tree, k); }
    if k: nat :| Over(target, Turns(ups, target, At(version, tree), k)) {
      OverMeansEnds(ups, version, target, tree, k);
    }
  }

  lemma {:induction false} StaysOver(ups: Upcasters, target: int, s: Loop, k: nat)
    requires Over(target, s)
    ensures Turns(ups, target, s, k) == s
  {
    if k > 0 { StaysOver(ups, target, s, k - 1); }
  }

  /** `upcast`, for every chain on which its loop ends: run it until it is over. */
  method Upcast(tree: Doc, ups: Upcasters, from: int, target: int) returns (r: Result<Doc>)
    requires Ends(ups, from, target)
    ensures r == Upcasted(tree, ups, from, target)
    ensures exists k: nat ::
      Over(target, Turns(ups, target, At(from, tree), k)) && r == Outcome(Turns(ups, target, At(from, tree), k))
  {
    ghost var bound: nat :| EndsWithin(ups, from, target, bound)
      && Upcasted(tree, ups, from, target) == Follow(ups, from, target, tree, bound);
    FollowIsTurns(ups, from, target, tree, bound);
    var version, doc := from, tree;
    ghost var k := bound;
    while version < target
      invariant EndsWithin(ups, version, target, k)
      invariant Follow(ups, version, target, doc, k) == Follow(ups, from, target, tree, bound)
      decreases k
    {
      if version !in ups { return Err(IncompleteUpcasterChain); }
      doc := ups[version].run(doc);
      version := ups[version].to;
      k := k - 1;
    }
    return Ok(doc);
  }

  /** A complete chain ends, with exactly the steps from..target-1 applied in order. */
  lemma {:induction false} ChainIsFollowed(ups: Upcasters, from: int, target: int, tree: Doc, k: nat)
    requires ChainOk(ups, from, target) && EndsWithin(ups, from, target, k) && from <= target
    ensures Follow(ups, from, target, tree, k) == Ok(Steps(ups, from, target, tree))
    decreases k
  {
    if from < target {
      assert TakesToNext(ups, from);
      ChainIsFollowed(ups, from + 1, target, ups[from].run(tree), k - 1);
      UpcastComposes(ups, from, from + 1, target, tree);
    }
  }

  lemma {:induction false} ChainEnds(ups: Upcasters, from: int, target: int)
    requires ChainOk(ups, from, target)
    ensures EndsWithin(ups, from, target, if from <= target then target - from else 0)
    ensures Ends(ups, from, target)
    decreases target - from
  {
    if from < target {
      assert TakesToNext(ups, from);
      ChainEnds(ups, from + 1, target);
      assert EndsWithin(ups, from, target, target - from);
    } else {
      assert EndsWithin(ups, from, target, 0);
    }
  }

  lemma ChainUpcasts(ups: Upcasters, from: int, target: int, tree: Doc)
    requires ChainOk(ups, from, target) && from <= target
    ensures Ends(ups, from, target) && Upcasted(tree, ups, from, target) == Ok(Steps(ups, from, target, tree))
  {
    ChainEnds(ups, from, target);
    var k: nat :| EndsWithin(ups, from, target, k)
      && Upcasted(tree, ups, from, target) == Follow(ups, from, target, tree, k);
    ChainIsFollowed(ups, from, target, tree, k);
  }

  /** On a validated chain the bare loop is over after to - from turns, not
      sooner, with the chain applied. */
  lemma {:induction false} ValidatedLoopFinishes(ups: Upcasters, from: int, target: int, tree: Doc, k: nat)
    requires ChainOk(ups, from, target) && from + k <= target
    ensures ChainOk(ups, from, from + k)
    ensures Turns(ups, target, At(from, tree), k) == At(from + k, Steps(ups, from, from + k, tree))
    ensures Over(target, Turns(ups, target, At(from, tree), k)) <==> from + k == target
  {
    if k > 0 {
      ValidatedLoopFinishes(ups, from, target, tree, k - 1);
      assert TakesToNext(ups, from + k - 1);
    }
  }

  /** Upcasting v to n is upcasting v to m, then m to n. */
  lemma {:induction false} UpcastComposes(ups: Upcasters, v: int, m: int, n: int, tree: Doc)
    requires v <= m <= n && ChainOk(ups, v, n)
    ensures Steps(ups, v, n, tree) == Steps(ups, m, n, Steps(ups, v, m, tree))
    decreases n - m
  {
    if m < n {
      UpcastComposes(ups, v, m, n - 1, tree);
      assert TakesToNext(ups, n - 1);
    }
  }

  /** Validation 1..n covers every stored version: from each v <= n the loop is
      over without raising, with steps v..n-1 applied. */
  lemma ValidatedChainIsTotal(ups: Upcasters, v: int, n: int, tree: Doc)
    requires ChainOk(ups, 1, n) && 1 <= v <= n
    ensures ChainOk(ups, v, n)
    ensures var s := Turns(ups, n, At(v, tree), n - v);
      Over(n, s) && Outcome(s) == Ok(Steps(ups, v, n, tree))
  {
    ValidatedLoopFinishes(ups, v, n, tree, n - v);
  }

  /** The validated case is the exact one for single steps: the loop passes
      through every version from..to, each once, exactly when the chain is complete. */
  lemma {:induction false} StepwiseIffValidated(ups: Upcasters, from: int, target: int, tree: Doc)
    requires from <= target
    ensures ChainOk(ups, from, target) <==>
      forall k: nat :: k <= target - from ==> Visits(ups, target, from, tree, k)
  {
    if ChainOk(ups, from, target) {
      forall k: nat | k <= target - from ensures Visits(ups, target, from, tree, k) {
        ValidatedLoopFinishes(ups, from, target, tree, k);
      }
    }
    if forall k: nat :: k <= target - from ==> Visits(ups, target, from, tree, k) {
      forall v | from <= v < target ensures TakesToNext(ups, v) {
        assert Visits(ups, target, from, tree, v - from) && Visits(ups, target, from, tree, v - from + 1);
      }
    }
  }

  /** After k turns the loop stands at version from + k. */
  predicate Visits(ups: Upcasters, target: int, from: int, tree: Doc, k: nat) {
    var s := Turns(ups, target, At(from, tree), k);
    s.At? && s.version == from + k
  }

  /** Without validation the loop need not end: an upcaster registered for a
      version below the target that does not leave it turns forever. */
  lemma {:induction false} UnvalidatedLoopNeverEnds(ups: Upcasters, v: int, target: int, tree: Doc, k: nat)
    requires v < target && v in ups && ups[v].to == v
    ensures !Over(target, Turns(ups, target, At(v, tree), k))
    ensures Turns(ups, target, At(v, tree), k).At? && Turns(ups, target, At(v, tree), k).version == v
    ensures !ChainOk(ups, v, target)
  {
    assert !TakesToNext(ups, v);
    if k > 0 { UnvalidatedLoopNeverEnds(ups, v, target, tree, k - 1); }
  }

  // ------------------------------------------------------------ upcast or refuse

  /** `_upcast_tree`: newer rows are refused, current ones pass, older ones upcast. */
  function UpcastTree(tree: Doc, from: int, target: int, ups: Upcasters): Result<Doc>
    requires Ends(ups, from, target)
  {
    if from > target then Err(UndecodableRevision)
    else if from == target then Ok(tree)
    else Upcasted(tree, ups, from, target)
  }

  /** `_upcast_tree` through the loop. */
  method UpcastStored(tree: Doc, from: int, target: int, ups: Upcasters) returns (r: Result<Doc>)
    requires Ends(ups, from, target)
    ensures r == UpcastTree(tree, from, target, ups)
  {
    if from > target { return Err(UndecodableRevision); }
    if from == target { return Ok(tree); }
    r := Upcast(tree, ups, from, target);
  }

  lemma {:induction false} TurnsAdd(ups: Upcasters, target: int, s: Loop, j: nat, k: nat)
    ensures Turns(ups, target, s, j + k) == Turns(ups, target, Turns(ups, target, s, j), k)
  {
    if k > 0 { TurnsAdd(ups, target, s, j, k - 1); }
  }

  /** The loop is over only once. */
  lemma OverOnce(ups: Upcasters, target: int, s: Loop, j: nat, k: nat)
    requires Over(target, Turns(ups, target, s, j)) && Over(target, Turns(ups, target, s, k))
    ensures Turns(ups, target, s, j) == Turns(ups, target, s, k)
  {
    var lo, hi := if j <= k then j else k, if j <= k then k else j;
    TurnsAdd(ups, target, s, lo, hi - lo);
    StaysOver(ups, target, Turns(ups, target, s, lo), hi - lo);
  }

  /** A tree that is not newer comes out as the loop leaves it, at whatever turn the
      loop is found over, and a newer one is refused. */
  lemma UpcastTreeIsTheLoop(tree: Doc, from: int, target: int, ups: Upcasters, k: nat)
    requires Over(target, Turns(ups, target, At(from, tree), k))
    ensures Ends(ups, from, target)
    ensures UpcastTree(tree, from, target, ups)
      == if from > target then Err(UndecodableRevision) else Outcome(Turns(ups, target, At(from, tree), k))
  {
    OverMeansEnds(ups, from, target, tree, k);
    if from == target { StaysOver(ups, target, At(from, tree), k); }
    if from < target {
      var bound: nat :| EndsWithin(ups, from, target, bound)
        && Upcasted(tree, ups, from, target) == Follow(ups, from, target, tree, bound);
      FollowIsTurns(ups, from, target, tree, bound);
      OverOnce(ups, target, At(from, tree), k, bound + 1);
    }
  }

  /** Over a complete chain an older tree comes out with every step between the two
      versions applied in order, so one version behind it comes out as that version's
      own upcaster makes it. */
  lemma UpcastTreeAppliesSteps(tree: Doc, from: int, target: int, ups: Upcasters)
    requires ChainOk(ups, from, target) && from <= target
    ensures Ends(ups, from, target)
    ensures UpcastTree(tree, from, target, ups) == Ok(Steps(ups, from, target, tree))
    ensures from + 1 == target ==>
      from in ups && ups[from].to == target && UpcastTree(tree, from, target, ups) == Ok(ups[from].run(tree))
  {
    ChainUpcasts(ups, from, target, tree);
    if from + 1 == target { assert TakesToNext(ups, from); }
  }

  /** Under a chain validated 1..target, for every stored version: a tree is refused
      exactly when it is newer than the declaration, and reading it through an
      older declaration first makes no difference. */
  lemma UpcastTreeComposes(tree: Doc, from: int, mid: int, target: int, ups: Upcasters)
    requires ChainOk(ups, 1, target) && from >= 1 && mid <= target
    ensures Ends(ups, from, mid) && Ends(ups, from, target) && (from <= mid ==> Ends(ups, mid, target))
    ensures UpcastTree(tree, from, target, ups).Err? <==> from > target
    ensures from <= mid ==>
      && UpcastTree(tree, from, mid, ups).Ok?
      && UpcastTree(UpcastTree(tree, from, mid, ups).value, mid, target, ups) == UpcastTree(tree, from, target, ups)
  {
    assert from > mid ==> EndsWithin(ups, from, mid, 0);
    assert from > target ==> EndsWithin(ups, from, target, 0);
    if from <= target { ChainUpcasts(ups, from, target, tree); }
    if from <= mid {
      ChainUpcasts(ups, from, mid, tree);
      ChainUpcasts(ups, mid, target, Steps(ups, from, mid, tree));
      UpcastComposes(ups, from, mid, target, tree);
    }
  }
}
