/** JSON trees with the two equalities the program uses: structural equality,
    which is what canonical bytes and digests see, and Python `==`, which
    identifies 1, 1.0 and True (and 0.0 with -0.0) at every depth. */
module JsonValues {

  datatype Json =
    | Null
    | Bool(b: bool)
    | Int(i: int)
    | Float(r: real)
    | NegZero                     // the float -0.0, whose text differs from 0.0
    | Str(s: string)
    | Arr(items: seq<Json>)
    | Obj(fields: Doc)

  /** A JSON object: what the log stores and what Python sees as a dict. */
  type Doc = map<string, Json>

  predicate IsNumber(j: Json) {
    j.Bool? || j.Int? || j.Float? || j.NegZero?
  }

  function NumberOf(j: Json): real
    requires IsNumber(j)
  {
    match j
    case Bool(b) => if b then 1.0 else 0.0
    case Int(i) => i as real
    case Float(r) => r
    case NegZero => 0.0
  }

  /** Python `==` on JSON trees. */
  predicate PyEq(a: Json, b: Json)
    decreases a
  {
    if IsNumber(a) && IsNumber(b) then NumberOf(a) == NumberOf(b)
    else
      match (a, b)
      case (Null, Null) => true
      case (Str(s), Str(t)) => s == t
      case (Arr(xs), Arr(ys)) => |xs| == |ys| && forall i :: 0 <= i < |xs| ==> PyEq(xs[i], ys[i])
      case (Obj(m), Obj(n)) => m.Keys == n.Keys && forall k :: k in m ==> PyEq(m[k], n[k])
      case _ => false
  }

  /** Python `==` on dicts. */
  predicate DocEq(a: Doc, b: Doc) {
    a.Keys == b.Keys && forall k :: k in a ==> PyEq(a[k], b[k])
  }

  lemma {:induction false} PyEqReflexive(a: Json)
    ensures PyEq(a, a)
  {
    match a
    case Arr(xs) =>
      forall i | 0 <= i < |xs| ensures PyEq(xs[i], xs[i]) { PyEqReflexive(xs[i]); }
    case Obj(m) =>
      forall k | k in m ensures PyEq(m[k], m[k]) { PyEqReflexive(m[k]); }
    case _ =>
  }

  lemma DocEqReflexive(a: Doc)
    ensures DocEq(a, a)
  {
    forall k | k in a ensures PyEq(a[k], a[k]) { PyEqReflexive(a[k]); }
  }

  // ------------------------------------------ what Python equality identifies

  /** The tree with every number replaced by its real value, and all else kept. */
  function Norm(j: Json): Json {
    match j
    case Bool(b) => Float(if b then 1.0 else 0.0)
    case Int(i) => Float(i as real)
    case NegZero => Float(0.0)
    case Arr(xs) => Arr(seq(|xs|, i requires 0 <= i < |xs| => Norm(xs[i])))
    case Obj(m) => Obj(map k | k in m :: Norm(m[k]))
    case _ => j
  }

  function NormDoc(d: Doc): Doc {
    map k | k in d :: Norm(d[k])
  }

  /** No number occurs in the tree. */
  predicate Numberless(j: Json) {
    match j
    case Arr(xs) => forall i :: 0 <= i < |xs| ==> Numberless(xs[i])
    case Obj(m) => forall k :: k in m ==> Numberless(m[k])
    case _ => !IsNumber(j)
  }

  /** Python `==` is equality up to the kind of number, at every depth, and nothing
      coarser. */
  lemma {:induction false} PyEqIffSameNorm(a: Json, b: Json)
    ensures PyEq(a, b) <==> Norm(a) == Norm(b)
    decreases a
  {
    match (a, b) {
      case (Arr(xs), Arr(ys)) =>
        forall i | 0 <= i < |xs| && i < |ys| ensures PyEq(xs[i], ys[i]) <==> Norm(xs[i]) == Norm(ys[i]) {
          PyEqIffSameNorm(xs[i], ys[i]);
        }
        ItemsEqIffSameNorm(xs, ys);
      case (Obj(m), Obj(n)) =>
        forall k | k in m && k in n ensures PyEq(m[k], n[k]) <==> Norm(m[k]) == Norm(n[k]) {
          PyEqIffSameNorm(m[k], n[k]);
        }
        FieldsEqIffSameNorm(m, n);
      case _ =>
    }
  }

  lemma ItemsEqIffSameNorm(xs: seq<Json>, ys: seq<Json>)
    requires forall i :: 0 <= i < |xs| && i < |ys| ==> (PyEq(xs[i], ys[i]) <==> Norm(xs[i]) == Norm(ys[i]))
    ensures PyEq(Arr(xs), Arr(ys)) <==> Norm(Arr(xs)) == Norm(Arr(ys))
  {
    SameNormItems(xs, ys);
    hide Norm;
  }

  lemma FieldsEqIffSameNorm(m: Doc, n: Doc)
    requires forall k :: k in m && k in n ==> (PyEq(m[k], n[k]) <==> Norm(m[k]) == Norm(n[k]))
    ensures PyEq(Obj(m), Obj(n)) <==> Norm(Obj(m)) == Norm(Obj(n))
  {
    SameNormDoc(m, n);
    assert Norm(Obj(m)).fields == NormDoc(m) && Norm(Obj(n)).fields == NormDoc(n);
    hide Norm, NormDoc;
  }

  lemma SameNormItems(xs: seq<Json>, ys: seq<Json>)
    ensures Norm(Arr(xs)) == Norm(Arr(ys)) <==>
      |xs| == |ys| && forall i :: 0 <= i < |xs| && i < |ys| ==> Norm(xs[i]) == Norm(ys[i])
  {
    var p, q := Norm(Arr(xs)).items, Norm(Arr(ys)).items;
    assert |p| == |xs| && |q| == |ys|;
    forall i | 0 <= i < |xs| ensures p[i] == Norm(xs[i]) {}
    forall i | 0 <= i < |ys| ensures q[i] == Norm(ys[i]) {}
    hide Norm;
    if p == q {
      forall i | 0 <= i < |xs| && i < |ys| ensures Norm(xs[i]) == Norm(ys[i]) { assert p[i] == q[i]; }
    }
  }

  lemma SameNormDoc(m: Doc, n: Doc)
    ensures NormDoc(m) == NormDoc(n) <==> m.Keys == n.Keys && forall k :: k in m && k in n ==> Norm(m[k]) == Norm(n[k])
  {
    hide Norm;
    if NormDoc(m) == NormDoc(n) {
      assert NormDoc(m).Keys == m.Keys && NormDoc(n).Keys == n.Keys;
      forall k | k in m && k in n ensures Norm(m[k]) == Norm(n[k]) {
        assert NormDoc(m)[k] == NormDoc(n)[k];
      }
    }
  }

  lemma DocEqIffSameNorm(m: Doc, n: Doc)
    ensures DocEq(m, n) <==> NormDoc(m) == NormDoc(n)
  {
    forall k | k in m && k in n ensures PyEq(m[k], n[k]) <==> Norm(m[k]) == Norm(n[k]) {
      PyEqIffSameNorm(m[k], n[k]);
    }
    hide PyEq, Norm, NormDoc;
    SameNormDoc(m, n);
  }

  lemma {:induction false} NumberlessIsItsNorm(j: Json)
    requires Numberless(j)
    ensures Norm(j) == j
  {
    match j {
      case Arr(xs) =>
        forall i | 0 <= i < |xs| ensures Norm(j).items[i] == xs[i] { NumberlessIsItsNorm(xs[i]); }
        assert Norm(j).items == xs;
      case Obj(m) =>
        forall k | k in m ensures Norm(m[k]) == m[k] { NumberlessIsItsNorm(m[k]); }
        assert NormDoc(m) == m;
      case _ =>
    }
  }

  /** Numbers compare by value whatever their kind: True is 1 and 1.0, -0.0 is 0. */
  lemma NumbersCompareByValue(b: bool, i: int, r: real)
    ensures PyEq(Int(i), Float(r)) <==> i as real == r
    ensures PyEq(Bool(b), Int(i)) <==> i == if b then 1 else 0
    ensures PyEq(Bool(b), Float(r)) <==> r == if b then 1.0 else 0.0
    ensures PyEq(NegZero, Float(r)) <==> r == 0.0
    ensures PyEq(NegZero, Int(i)) <==> i == 0
  {
    PyEqIffSameNorm(Int(i), Float(r));
  }

  /** On trees without numbers Python `==` is equality; on numbers it compares values. */
  lemma PyEqIsEqualityWithoutNumbers(a: Json, b: Json)
    ensures Numberless(a) && Numberless(b) ==> (PyEq(a, b) <==> a == b)
    ensures IsNumber(a) && IsNumber(b) ==> (PyEq(a, b) <==> NumberOf(a) == NumberOf(b))
    ensures IsNumber(a) && Numberless(b) ==> !PyEq(a, b) && !PyEq(b, a)
  {
    PyEqIffSameNorm(a, b);
    PyEqIffSameNorm(b, a);
    if Numberless(a) { NumberlessIsItsNorm(a); }
    if Numberless(b) { NumberlessIsItsNorm(b); }
  }

  /** Byte strings that spell a JSON object.  `Canonical(d)` is the canonical
      serialization of `d`; `Spelling` is any other text that parses to `doc`. */
  datatype Bytes = Canonical(doc: Doc) | Spelling(doc: Doc, text: string)

  function CanonicalBytes(d: Doc): Bytes {
    Canonical(d)
  }

  function Loads(b: Bytes): Doc {
    b.doc
  }

  /** Digests as a free injective constructor over bytes; a caller may also
      supply a digest that is the digest of nothing. */
  datatype Digest = Sha(of: Bytes) | Foreign(hex: string)

  function DigestOf(b: Bytes): Digest {
    Sha(b)
  }
}
