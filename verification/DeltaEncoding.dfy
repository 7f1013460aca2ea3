/** `delta/1`: top-level key differences with explicit tombstones. */
module DeltaEncoding {
  import opened JsonValues

  /** The physical payload of a delta row.  The tombstone list has no repeats
      and its order is never observed, so it is a set. */
  datatype Patch = Patch(every: nat, base: int, sets: Doc, dels: set<string>)

  /** The window of a stored patch: a falsy `every` reads as the default. */
  function SpanOf(p: Patch): (span: nat)
    ensures span >= 1
  {
    if p.every == 0 then 20 else p.every
  }

  predicate IsCheckpoint(every: nat, revision: int)
    requires every >= 1
  {
    revision == 0 || revision % every == 0
  }

  function Encode(every: nat, doc: Doc, base: Doc, baseRevision: int): Patch {
    Patch(every, baseRevision,
          map k | k in doc && (k !in base || !PyEq(base[k], doc[k])) :: doc[k],
          set k | k in base && k !in doc)
  }

  lemma EncodeHeader(every: nat, doc: Doc, base: Doc, baseRevision: int)
    ensures var p := Encode(every, doc, base, baseRevision); p.every == every && p.base == baseRevision
  {
  }

  function Decode(p: Patch, base: Doc): Doc {
    (base - p.dels) + p.sets
  }

  /** `Delta.decode`: copy the base, pop every tombstone, set every change. */
  method DecodeInPlace(p: Patch, base: Doc) returns (result: Doc)
    ensures result == Decode(p, base)
  {
    result := base;
    var tombstones := p.dels;
    while tombstones != {}
      invariant tombstones <= p.dels
      invariant result == base - (p.dels - tombstones)
      decreases tombstones
    {
      var key :| key in tombstones;
      result := result - {key};
      tombstones := tombstones - {key};
    }
    var pending := p.sets.Keys;
    while pending != {}
      invariant pending <= p.sets.Keys
      invariant result == (base - p.dels) + (p.sets - pending)
      decreases pending
    {
      var key :| key in pending;
      result := result[key := p.sets[key]];
      pending := pending - {key};
    }
  }

  /** `changed_keys`: keys on one side only, and shared keys that Python calls different. */
  function ChangedKeys(before: Doc, after: Doc): set<string> {
    (before.Keys - after.Keys) + (after.Keys - before.Keys)
    + set k | k in before && k in after && !PyEq(before[k], after[k])
  }

  /** The changed keys are those on one side only, and those whose values differ
      beyond the kind of their numbers. */
  lemma ChangedKeysByNorm(before: Doc, after: Doc, key: string)
    ensures key in ChangedKeys(before, after) <==>
      && (key in before || key in after)
      && (key in before && key in after ==> Norm(before[key]) != Norm(after[key]))
  {
    if key in before && key in after { PyEqIffSameNorm(before[key], after[key]); }
  }

  /** A change in the kind of a number alone: Python `==` cannot see it, canonical
      bytes can. */
  predicate HiddenChange(before: Doc, after: Doc) {
    exists k :: k in before && k in after && before[k] != after[k] && Norm(before[k]) == Norm(after[k])
  }

  /** Decoding what was encoded gives the same keys and Python-equal values. */
  lemma CodecAgreesUpToPythonEquality(every: nat, doc: Doc, base: Doc, rev: int)
    ensures DocEq(Decode(Encode(every, doc, base, rev), base), doc)
  {
    DocEqReflexive(doc);
    var out := Decode(Encode(every, doc, base, rev), base);
    forall k | k in out ensures PyEq(out[k], doc[k]) {}
    assert out.Keys == doc.Keys;
  }

  /** The round trip is byte-exact precisely when no change is hidden. */
  lemma CodecExactIffNoHiddenChange(every: nat, doc: Doc, base: Doc, rev: int)
    ensures Decode(Encode(every, doc, base, rev), base) == doc <==> !HiddenChange(base, doc)
  {
    var out := Decode(Encode(every, doc, base, rev), base);
    forall k | k in base && k in doc ensures PyEq(base[k], doc[k]) <==> Norm(base[k]) == Norm(doc[k]) {
      PyEqIffSameNorm(base[k], doc[k]);
    }
    hide PyEq, Norm;
    if k :| k in base && k in doc && base[k] != doc[k] && Norm(base[k]) == Norm(doc[k]) {
      assert out[k] == base[k];
    } else {
      forall k | k in doc ensures out[k] == doc[k] {}
      assert out.Keys == doc.Keys;
    }
  }

  /** A patch touches exactly the changed keys, and every key it does not touch
      keeps the base's value. */
  lemma PatchTouchesChangedKeys(every: nat, doc: Doc, base: Doc, rev: int)
    ensures var p := Encode(every, doc, base, rev);
      && p.sets.Keys !! p.dels
      && p.sets.Keys + p.dels == ChangedKeys(base, doc)
      && (forall k :: k in p.sets <==> k in doc && (k in base ==> Norm(base[k]) != Norm(doc[k])))
      && (forall k :: k in p.dels <==> k in base && k !in doc)
      && (forall k :: k in p.sets ==> p.sets[k] == doc[k])
      && (forall k :: k in base && k !in ChangedKeys(base, doc) ==>
            k in Decode(p, base) && Decode(p, base)[k] == base[k])
  {
    forall k | k in base && k in doc ensures PyEq(base[k], doc[k]) <==> Norm(base[k]) == Norm(doc[k]) {
      PyEqIffSameNorm(base[k], doc[k]);
    }
    hide PyEq, Norm;
  }

  /** The false reading of the codec's promise: replacing 1 by True is a change
      to canonical bytes that the codec loses. */
  lemma HiddenChangeWitness()
    ensures var base: Doc := map["done" := Int(1)];
      var doc: Doc := map["done" := Bool(true)];
      && ChangedKeys(base, doc) == {}
      && Decode(Encode(20, doc, base, 0), base) == base
      && CanonicalBytes(base) != CanonicalBytes(doc)
  {
    var base: Doc := map["done" := Int(1)];
    var doc: Doc := map["done" := Bool(true)];
    assert PyEq(base["done"], doc["done"]);
    assert base["done"] != doc["done"];
    assert Encode(20, doc, base, 0).sets == map[];
  }
}
