/** The search for secret fields in a model graph that may be cyclic. */
module Secrets {

  type TypeId = string

  /** A field annotation.  `Annotated` keeps its metadata, which may be anything,
      types included; `Generic` is every other origin whose arguments are types
      (`Literal[...]`, whose arguments are values, is `Plain`); `Named` is a type
      that is no model but stands for or holds others: a type alias, a NewType, a
      TypedDict, a dataclass, a subclass of SecretStr. */
  datatype Ann =
    | Secret
    | Plain
    | UnionOf(args: seq<Ann>)
    | Annotated(inner: Ann, metadata: seq<Ann>)
    | Model(id: TypeId)
    | Named(id: TypeId)
    | Generic(origin: string, args: seq<Ann>)

  /** A declared type: the annotations of its fields (for an alias, what it stands
      for), and a model's own raw `__annotations__`. */
  datatype TypeDecl = TypeDecl(fields: seq<Ann>, declared: seq<Ann>)

  type Types = map<TypeId, TypeDecl>

  const WALKED: set<string> := {"list", "set", "tuple", "dict"}

  function FieldsOf(env: Types, m: TypeId): seq<Ann> {
    if m in env then env[m].fields else []
  }

  // ---------------------------------------------------------------- the search

  /** `_walk_secret`: `seen` holds the models on the current path only. */
  predicate WalkSecret(env: Types, m: TypeId, seen: set<TypeId>)
    decreases |env.Keys - seen|, 0
  {
    if m in seen || m !in env then false
    else
      assert env.Keys - (seen + {m}) < env.Keys - seen by { assert m in env.Keys - seen; }
      Shrinks(env.Keys - (seen + {m}), env.Keys - seen);
      exists f :: f in env[m].fields && AnnotationHasSecret(env, f, seen + {m})
  }

  /** `_annotation_has_secret` */
  predicate AnnotationHasSecret(env: Types, a: Ann, seen: set<TypeId>)
    decreases |env.Keys - seen|, 1, a
  {
    match a
    case Secret => true
    case Plain => false
    case UnionOf(args) => exists x :: x in args && AnnotationHasSecret(env, x, seen)
    case Annotated(inner, _) => AnnotationHasSecret(env, inner, seen)
    case Model(id) => WalkSecret(env, id, seen)
    case Named(_) => false
    case Generic(origin, args) =>
      origin in WALKED && exists x :: x in args && AnnotationHasSecret(env, x, seen)
  }

  /** `contains_secret`: the model's own raw annotations first, then the walk. */
  predicate ContainsSecret(env: Types, m: TypeId) {
    (m in env && Secret in env[m].declared) || WalkSecret(env, m, {})
  }

  lemma Shrinks<T>(a: set<T>, b: set<T>)
    requires a < b
    ensures |a| < |b|
  {
    assert b == a + (b - a);
    assert |b - a| > 0;
  }

  // ------------------------------------------------------- what it searches for

  /** SecretStr occurs in the annotation without passing through a declared type.
      With `all`, type arguments of every generic count, otherwise only of the
      walked ones. */
  predicate Mentions(a: Ann, all: bool) {
    match a
    case Secret => true
    case Plain => false
    case UnionOf(args) => exists x :: x in args && Mentions(x, all)
    case Annotated(inner, _) => Mentions(inner, all)
    case Model(_) => false
    case Named(_) => false
    case Generic(origin, args) => (all || origin in WALKED) && exists x :: x in args && Mentions(x, all)
  }

  /** The annotation refers to the type without passing through another.  Named
      types count with `all` only. */
  predicate LinksTo(a: Ann, id: TypeId, all: bool) {
    match a
    case Secret => false
    case Plain => false
    case UnionOf(args) => exists x :: x in args && LinksTo(x, id, all)
    case Annotated(inner, _) => LinksTo(inner, id, all)
    case Model(m) => m == id
    case Named(n) => all && n == id
    case Generic(origin, args) => (all || origin in WALKED) && exists x :: x in args && LinksTo(x, id, all)
  }

  predicate HoldsSecret(env: Types, m: TypeId, all: bool) {
    exists f :: f in FieldsOf(env, m) && Mentions(f, all)
  }

  predicate Edge(env: Types, m: TypeId, n: TypeId, all: bool) {
    exists f :: f in FieldsOf(env, m) && LinksTo(f, n, all)
  }

  /** A chain of types, each referred to by a field of the one before, ending in
      one with a SecretStr field. */
  predicate SecretPath(env: Types, path: seq<TypeId>, all: bool) {
    && path != []
    && (forall i :: 0 < i < |path| ==> Edge(env, path[i - 1], path[i], all))
    && HoldsSecret(env, path[|path| - 1], all)
  }

  /** A SecretStr field is somewhere in the type graph below `m`. */
  ghost predicate SecretReachable(env: Types, m: TypeId, all: bool) {
    exists path :: path != [] && path[0] == m && SecretPath(env, path, all)
  }

  predicate Avoids(path: seq<TypeId>, seen: set<TypeId>) {
    forall i :: 0 <= i < |path| ==> path[i] !in seen
  }

  // ------------------------------------------------------ soundness, completeness

  /** An annotation has a secret when it mentions one or links to a model that has one. */
  lemma {:induction false} AnnotationSplits(env: Types, a: Ann, seen: set<TypeId>)
    ensures AnnotationHasSecret(env, a, seen) <==>
      Mentions(a, false) || exists id :: LinksTo(a, id, false) && WalkSecret(env, id, seen)
    decreases a
  {
    hide WalkSecret;
    match a {
      case UnionOf(args) => ArgumentsSplit(env, args, seen);
      case Generic(_, args) => ArgumentsSplit(env, args, seen);
      case Annotated(inner, _) => AnnotationSplits(env, inner, seen);
      case Model(id) => assert LinksTo(a, id, false);
      case _ =>
    }
  }

  predicate AnyLinksTo(args: seq<Ann>, id: TypeId) {
    exists x :: x in args && LinksTo(x, id, false)
  }

  lemma {:induction false} ArgumentsSplit(env: Types, args: seq<Ann>, seen: set<TypeId>)
    ensures (exists x :: x in args && AnnotationHasSecret(env, x, seen)) <==>
      (exists x :: x in args && Mentions(x, false)) || exists id :: AnyLinksTo(args, id) && WalkSecret(env, id, seen)
    decreases args
  {
    hide WalkSecret, AnnotationHasSecret, Mentions, LinksTo;
    forall x | x in args
      ensures Mentions(x, false) ==> AnnotationHasSecret(env, x, seen)
      ensures forall id :: LinksTo(x, id, false) && WalkSecret(env, id, seen) ==> AnnotationHasSecret(env, x, seen)
    {
      AnnotationSplits(env, x, seen);
    }
    if x :| x in args && AnnotationHasSecret(env, x, seen) {
      AnnotationSplits(env, x, seen);
      if !Mentions(x, false) {
        var id :| LinksTo(x, id, false) && WalkSecret(env, id, seen);
        assert AnyLinksTo(args, id);
      }
    }
  }

  /** The walk succeeds exactly on a model that holds a secret, or leads to one
      that the walk succeeds on with this model seen. */
  lemma WalkSplits(env: Types, m: TypeId, seen: set<TypeId>)
    requires m !in seen
    ensures WalkSecret(env, m, seen) <==>
      HoldsSecret(env, m, false) || exists id :: Edge(env, m, id, false) && WalkSecret(env, id, seen + {m})
  {
    hide AnnotationHasSecret, Mentions, LinksTo;
    if m in env {
      ArgumentsSplit(env, env[m].fields, seen + {m});
      assert WalkSecret(env, m, seen) <==>
        exists f :: f in env[m].fields && AnnotationHasSecret(env, f, seen + {m});
    }
  }

  /** Sound: the walk reports only what is there, on a path that avoids `seen`. */
  lemma {:induction false} WalkIsSound(env: Types, m: TypeId, seen: set<TypeId>) returns (path: seq<TypeId>)
    requires WalkSecret(env, m, seen)
    ensures SecretPath(env, path, false) && path[0] == m && Avoids(path, seen)
    decreases |env.Keys - seen|
  {
    hide Edge, HoldsSecret;
    WalkSplits(env, m, seen);
    if HoldsSecret(env, m, false) {
      path := [m];
    } else {
      assert env.Keys - (seen + {m}) < env.Keys - seen by { assert m in env.Keys - seen; }
      Shrinks(env.Keys - (seen + {m}), env.Keys - seen);
      var id :| Edge(env, m, id, false) && WalkSecret(env, id, seen + {m});
      var rest := WalkIsSound(env, id, seen + {m});
      path := [m] + rest;
      forall i | 0 < i < |path| ensures Edge(env, path[i - 1], path[i], false) {
        if i > 1 { assert Edge(env, rest[i - 2], rest[i - 1], false); }
      }
    }
  }

  /** Complete: a path that avoids `seen` is found, although the walk refuses to
      revisit models; where a path returns to its first model, the loop is cut. */
  lemma {:induction false} WalkIsComplete(env: Types, path: seq<TypeId>, seen: set<TypeId>)
    requires SecretPath(env, path, false) && Avoids(path, seen)
    ensures WalkSecret(env, path[0], seen)
    decreases |path|
  {
    hide Edge, HoldsSecret, WalkSecret;
    WalkSplits(env, path[0], seen);
    if i :| 0 < i < |path| && path[i] == path[0] {
      Suffix(env, path, i);
      WalkIsComplete(env, path[i..], seen);
    } else if |path| > 1 {
      Suffix(env, path, 1);
      WalkIsComplete(env, path[1..], seen + {path[0]});
      assert Edge(env, path[0], path[1], false);
    }
  }

  lemma Suffix(env: Types, path: seq<TypeId>, i: nat)
    requires SecretPath(env, path, false) && i < |path|
    ensures SecretPath(env, path[i..], false)
  {
  }

  /** The search terminates and is true exactly when a SecretStr is annotated
      directly on the model or reachable through unions, Annotated, list, set,
      tuple, dict and nested models, cycles included. */
  lemma SearchIsExact(env: Types, m: TypeId)
    ensures ContainsSecret(env, m) <==>
      (m in env && Secret in env[m].declared) || SecretReachable(env, m, false)
  {
    hide WalkSecret;
    if WalkSecret(env, m, {}) { var path := WalkIsSound(env, m, {}); }
    if path :| path != [] && path[0] == m && SecretPath(env, path, false) { WalkIsComplete(env, path, {}); }
  }

  // ------------------------------------------------- any field anywhere, when?

  /** What the walk enters counts anywhere. */
  lemma {:induction false} WalkedCounts(a: Ann, id: TypeId)
    ensures Mentions(a, false) ==> Mentions(a, true)
    ensures LinksTo(a, id, false) ==> LinksTo(a, id, true)
  {
    match a {
      case UnionOf(args) => forall x | x in args { WalkedCounts(x, id); }
      case Generic(_, args) => forall x | x in args { WalkedCounts(x, id); }
      case Annotated(inner, _) => WalkedCounts(inner, id);
      case _ =>
    }
  }

  /** A model's raw annotations that are SecretStr are fields of it. */
  predicate DeclaredAreFields(env: Types, m: TypeId) {
    m in env && Secret in env[m].declared ==> Secret in env[m].fields
  }

  /** The search never accuses a model without reason: what it finds is a SecretStr
      below the model, or one that the model declares without its being a field. */
  lemma SearchIsSound(env: Types, m: TypeId)
    requires ContainsSecret(env, m)
    ensures SecretReachable(env, m, true) || !DeclaredAreFields(env, m)
  {
    hide WalkSecret, Edge, HoldsSecret;
    SearchIsExact(env, m);
    if path :| path != [] && path[0] == m && SecretPath(env, path, false) {
      forall i | 0 < i < |path| ensures Edge(env, path[i - 1], path[i], true) {
        WalkedFields(env, path[i - 1], path[i]);
      }
      WalkedFields(env, path[|path| - 1], m);
      assert SecretPath(env, path, true);
    } else if Secret in env[m].fields {
      OwnSecret(env, m);
    }
  }

  lemma OwnSecret(env: Types, m: TypeId)
    requires m in env && Secret in env[m].fields
    ensures SecretReachable(env, m, true)
  {
    assert Mentions(Secret, true);
    assert SecretPath(env, [m], true);
  }

  lemma WalkedFields(env: Types, m: TypeId, n: TypeId)
    ensures Edge(env, m, n, false) ==> Edge(env, m, n, true)
    ensures HoldsSecret(env, m, false) ==> HoldsSecret(env, m, true)
  {
    hide Mentions, LinksTo;
    forall f | f in FieldsOf(env, m)
      ensures Mentions(f, false) ==> Mentions(f, true)
      ensures LinksTo(f, n, false) ==> LinksTo(f, n, true)
    {
      WalkedCounts(f, n);
    }
  }

  /** What annotations may be made of: which generic origins, and whether named types. */
  datatype Vocabulary = Vocabulary(origins: set<string>, named: bool)

  predicate Speaks(a: Ann, v: Vocabulary) {
    match a
    case UnionOf(args) => forall x :: x in args ==> Speaks(x, v)
    case Annotated(inner, _) => Speaks(inner, v)
    case Named(_) => v.named
    case Generic(origin, args) => origin in v.origins && forall x :: x in args ==> Speaks(x, v)
    case _ => true
  }

  predicate FieldsSpeak(env: Types, m: TypeId, v: Vocabulary) {
    forall f :: f in FieldsOf(env, m) ==> Speaks(f, v)
  }

  predicate TypePath(env: Types, path: seq<TypeId>) {
    path != [] && forall i :: 0 < i < |path| ==> Edge(env, path[i - 1], path[i], true)
  }

  /** Every type below `m` keeps to the vocabulary; types elsewhere do not matter. */
  ghost predicate Within(env: Types, m: TypeId, v: Vocabulary) {
    forall path :: TypePath(env, path) && path[0] == m ==> FieldsSpeak(env, path[|path| - 1], v)
  }

  predicate Entered(v: Vocabulary) {
    v.origins <= WALKED && !v.named
  }

  lemma {:induction false} EnteredHidesNothing(a: Ann, id: TypeId, v: Vocabulary)
    requires Speaks(a, v) && Entered(v)
    ensures Mentions(a, true) == Mentions(a, false)
    ensures LinksTo(a, id, true) == LinksTo(a, id, false)
  {
    match a {
      case UnionOf(args) => forall x | x in args { EnteredHidesNothing(x, id, v); }
      case Generic(_, args) => forall x | x in args { EnteredHidesNothing(x, id, v); }
      case Annotated(inner, _) => EnteredHidesNothing(inner, id, v);
      case _ =>
    }
  }

  lemma SameFields(env: Types, m: TypeId, n: TypeId, v: Vocabulary)
    requires FieldsSpeak(env, m, v) && Entered(v)
    ensures Edge(env, m, n, true) == Edge(env, m, n, false)
    ensures HoldsSecret(env, m, true) == HoldsSecret(env, m, false)
  {
    hide Mentions, LinksTo, Speaks;
    forall f | f in FieldsOf(env, m)
      ensures Mentions(f, true) == Mentions(f, false) && LinksTo(f, n, true) == LinksTo(f, n, false)
    {
      EnteredHidesNothing(f, n, v);
    }
  }

  /** Below a model that keeps to what the walk enters, every path is walked. */
  lemma PathsAreWalked(env: Types, path: seq<TypeId>, v: Vocabulary)
    requires path != [] && Within(env, path[0], v) && Entered(v) && SecretPath(env, path, true)
    ensures SecretPath(env, path, false)
  {
    hide Edge, HoldsSecret, Entered;
    forall i | 0 <= i < |path| ensures FieldsSpeak(env, path[i], v) {
      var front := path[..i + 1];
      forall k | 0 < k < |front| ensures Edge(env, front[k - 1], front[k], true) {
        assert Edge(env, path[k - 1], path[k], true);
      }
      assert TypePath(env, front) && front[0] == path[0];
    }
    hide FieldsSpeak;
    forall i | 0 < i < |path| ensures Edge(env, path[i - 1], path[i], false) {
      SameFields(env, path[i - 1], path[i], v);
    }
    SameFields(env, path[|path| - 1], path[0], v);
  }

  /** Below a model that keeps to what the walk enters, the search answers for every
      field anywhere. */
  lemma EnteredSearchIsTotal(env: Types, m: TypeId, v: Vocabulary)
    requires Within(env, m, v) && Entered(v) && DeclaredAreFields(env, m)
    ensures ContainsSecret(env, m) <==> SecretReachable(env, m, true)
  {
    hide WalkSecret, SecretPath, Within, Entered;
    SearchIsExact(env, m);
    if ContainsSecret(env, m) { SearchIsSound(env, m); }
    if path :| path != [] && path[0] == m && SecretPath(env, path, true) { PathsAreWalked(env, path, v); }
  }

  /** On every graph of the vocabulary the search answers for every field anywhere. */
  ghost predicate AlwaysTotal(v: Vocabulary) {
    forall env: Types, m ::
      Within(env, m, v) && DeclaredAreFields(env, m) ==> (ContainsSecret(env, m) <==> SecretReachable(env, m, true))
  }

  /** The promise of "any field anywhere in the model graph" holds for all graphs of
      a vocabulary if and only if it has no generic origin but list, set, tuple and
      dict, and no named type. */
  lemma SearchIsTotalIffEntered(v: Vocabulary)
    ensures AlwaysTotal(v) <==> Entered(v)
  {
    hide WalkSecret, ContainsSecret, SecretReachable, DeclaredAreFields, Within;
    if Entered(v) {
      forall env: Types, m | Within(env, m, v) && DeclaredAreFields(env, m)
        ensures ContainsSecret(env, m) <==> SecretReachable(env, m, true)
      {
        EnteredSearchIsTotal(env, m, v);
      }
    } else if v.named {
      NamedTypeHidesSecret(v);
    } else {
      var origin :| origin in v.origins && origin !in WALKED;
      UnwalkedGenericHidesSecret(origin, v);
    }
  }

  /** A model whose one field is a generic of SecretStr is accused exactly for the
      four containers the walk enters. */
  lemma GenericSecretFoundIff(env: Types, m: TypeId, origin: string)
    requires m in env && env[m].fields == [Generic(origin, [Secret])] && Secret !in env[m].declared
    ensures ContainsSecret(env, m) <==> origin == "list" || origin == "set" || origin == "tuple" || origin == "dict"
  {
    var field := Generic(origin, [Secret]);
    var seen: set<TypeId> := {} + {m};
    assert [Secret][0] == Secret && AnnotationHasSecret(env, Secret, seen);
    assert AnnotationHasSecret(env, field, seen) <==> origin in WALKED;
    assert env[m].fields[0] == field;
    assert WalkSecret(env, m, {}) <==> AnnotationHasSecret(env, field, seen);
  }

  /** What is found of a model's one field: a SecretStr, also as a union's arm, under
      Annotated or in another model, but not in Annotated's metadata, and nothing in a
      plain type. */
  lemma FieldSecretFoundIff(env: Types, m: TypeId, field: Ann, metadata: seq<Ann>)
    requires m in env && env[m].fields == [field] && Secret !in env[m].declared
    ensures field == Secret ==> ContainsSecret(env, m)
    ensures field == UnionOf([Plain, Secret]) ==> ContainsSecret(env, m)
    ensures field == Annotated(Secret, metadata) ==> ContainsSecret(env, m)
    ensures field == Annotated(Plain, metadata) || field == Plain ==> !ContainsSecret(env, m)
    ensures forall n :: n in env && n != m && env[n].fields == [Secret] && field == Model(n) ==> ContainsSecret(env, m)
  {
    var seen: set<TypeId> := {} + {m};
    assert env[m].fields[0] == field;
    assert WalkSecret(env, m, {}) <==> AnnotationHasSecret(env, field, seen);
    assert [Plain, Secret][1] == Secret && AnnotationHasSecret(env, Secret, seen);
    forall n | n in env && n != m && env[n].fields == [Secret] ensures AnnotationHasSecret(env, Model(n), seen) {
      assert env[n].fields[0] == Secret && AnnotationHasSecret(env, Secret, seen + {n});
    }
  }

  /** A generic the walk does not enter hides its SecretStr, as in `Sequence[SecretStr]`. */
  lemma UnwalkedGenericHidesSecret(origin: string, v: Vocabulary)
    requires origin !in WALKED && origin in v.origins
    ensures var field := Generic(origin, [Secret]);
      var env: Types := map["A" := TypeDecl([field], [field])];
      && Within(env, "A", v) && DeclaredAreFields(env, "A")
      && SecretReachable(env, "A", true) && !ContainsSecret(env, "A")
  {
    var field := Generic(origin, [Secret]);
    var env: Types := map["A" := TypeDecl([field], [field])];
    assert [Secret][0] == Secret && Mentions(Secret, true);
    assert Mentions(field, true);
    assert [field][0] == field;
    assert SecretPath(env, ["A"], true);
    assert !AnnotationHasSecret(env, field, {"A"});
    assert Secret !in env["A"].declared;
    assert forall a: Ann :: a in [Secret] ==> Speaks(a, v);
    assert Speaks(field, v);
    forall path | TypePath(env, path) && path[0] == "A" && |path| > 1 ensures Edge(env, "A", path[1], true) {
      assert Edge(env, path[0], path[1], true);
    }
    forall x, n | x in [Secret] ensures !LinksTo(x, n, true) { assert x == Secret; }
    forall n ensures !LinksTo(field, n, true) {}
    forall path | TypePath(env, path) && path[0] == "A" ensures FieldsSpeak(env, path[|path| - 1], v) {}
    assert Within(env, "A", v);
    assert SecretReachable(env, "A", true);
    assert !WalkSecret(env, "A", {});
  }

  /** A named type the walk does not enter hides its SecretStr, as in
      `type Token = SecretStr`. */
  lemma NamedTypeHidesSecret(v: Vocabulary)
    requires v.named
    ensures var env: Types := map["A" := TypeDecl([Named("Token")], [Named("Token")]),
                            "Token" := TypeDecl([Secret], [])];
      && Within(env, "A", v) && DeclaredAreFields(env, "A")
      && SecretReachable(env, "A", true) && !ContainsSecret(env, "A")
  {
    var field := Named("Token");
    var env: Types := map["A" := TypeDecl([field], [field]), "Token" := TypeDecl([Secret], [])];
    assert [Secret][0] == Secret && Mentions(Secret, true);
    assert HoldsSecret(env, "Token", true);
    assert [field][0] == field && LinksTo(field, "Token", true);
    assert Edge(env, "A", "Token", true);
    assert SecretPath(env, ["A", "Token"], true);
    assert !AnnotationHasSecret(env, field, {"A"});
    assert Secret !in env["A"].declared;
    forall m | true ensures FieldsSpeak(env, m, v) {}
  }
}
