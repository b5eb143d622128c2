/** The decoders' adapter cache: keys that tell apart types Python calls equal, and lookups that always agree with the builder. */
module AdapterCache {
  import opened Options

  /** A hashable type expression: a class, something else without `__args__`, a generic alias or a union. */
  datatype Ty = Class(id: int) | Special(id: int) | Generic(origin: int, args: seq<Ty>) | Union(args: seq<Ty>)

  /** Python's `==`: unions are equal when they have the same members, in whatever order. */
  predicate PyEq(a: Ty, b: Ty)
    decreases a, 0
  {
    match a
    case Class(id) => b == Class(id)
    case Special(id) => b == Special(id)
    case Generic(origin, args) =>
      b.Generic? && origin == b.origin && |args| == |b.args| && forall i :: 0 <= i < |args| ==> PyEq(args[i], b.args[i])
    case Union(args) =>
      && b.Union?
      && (forall i :: 0 <= i < |args| ==> AmongRight(args[i], b.args))
      && (forall j :: 0 <= j < |b.args| ==> AmongLeft(args, b.args[j]))
  }

  predicate AmongRight(x: Ty, ys: seq<Ty>)
    decreases x, 1
  {
    exists j :: 0 <= j < |ys| && PyEq(x, ys[j])
  }

  predicate AmongLeft(xs: seq<Ty>, y: Ty)
    decreases xs, 0
  {
    exists i :: 0 <= i < |xs| && PyEq(xs[i], y)
  }

  lemma {:induction false} PyEqReflexive(a: Ty)
    ensures PyEq(a, a)
  {
    if a.Generic? || a.Union? {
      forall i | 0 <= i < |a.args|
        ensures PyEq(a.args[i], a.args[i]) && AmongRight(a.args[i], a.args) && AmongLeft(a.args, a.args[i])
      {
        PyEqReflexive(a.args[i]);
      }
    }
  }

  // ---- keys ----

  /** A dictionary key: a class itself, or the tuple of a type and the keys of its arguments. */
  datatype Key = OfClass(id: int) | Tuple(model: Ty, parts: seq<Key>)

  function Args(model: Ty): seq<Ty> {
    if model.Generic? || model.Union? then model.args else []
  }

  /** `_key`. */
  function KeyOf(model: Ty): Key {
    if model.Class? then OfClass(model.id)
    else
      var args := Args(model);
      Tuple(model, seq(|args|, i requires 0 <= i < |args| => KeyOf(args[i])))
  }

  /** `==` on keys: tuples compare member by member. */
  predicate KeyEq(k: Key, l: Key) {
    match k
    case OfClass(id) => l == OfClass(id)
    case Tuple(model, parts) =>
      l.Tuple? && PyEq(model, l.model) && |parts| == |l.parts| && forall i :: 0 <= i < |parts| ==> KeyEq(parts[i], l.parts[i])
  }

  /** Keys are equal exactly when the types are the same, union order included, at every depth. */
  lemma {:induction false} KeysTellTypesApart(a: Ty, b: Ty)
    ensures KeyEq(KeyOf(a), KeyOf(b)) <==> a == b
  {
    KeyEqReflexive(a);
    if KeyEq(KeyOf(a), KeyOf(b)) && !a.Class? {
      forall i | 0 <= i < |Args(a)|
        ensures Args(a)[i] == Args(b)[i]
      {
        assert KeyEq(KeyOf(a).parts[i], KeyOf(b).parts[i]);
        KeysTellTypesApart(Args(a)[i], Args(b)[i]);
      }
      assert Args(a) == Args(b);
    }
  }

  lemma {:induction false} KeyEqReflexive(a: Ty)
    ensures KeyEq(KeyOf(a), KeyOf(a))
  {
    PyEqReflexive(a);
    var args := Args(a);
    forall i | 0 <= i < |args|
      ensures KeyEq(KeyOf(args[i]), KeyOf(args[i]))
    {
      KeyEqReflexive(args[i]);
    }
  }

  /** Python's own equality would not do, however deep the union is. */
  lemma {:induction false} EqualityConfusesUnions(depth: nat)
    ensures PyEq(Nested([Class(0), Class(1)], depth), Nested([Class(1), Class(0)], depth))
    ensures Nested([Class(0), Class(1)], depth) != Nested([Class(1), Class(0)], depth)
  {
    if depth == 0 {
      var a, b := [Class(0), Class(1)], [Class(1), Class(0)];
      assert AmongRight(a[0], b) && AmongRight(a[1], b) && AmongLeft(a, b[0]) && AmongLeft(a, b[1]) by {
        assert PyEq(a[0], b[1]) && PyEq(a[1], b[0]);
      }
    } else {
      EqualityConfusesUnions(depth - 1);
      assert Nested([Class(0), Class(1)], depth).args[0] != Nested([Class(1), Class(0)], depth).args[0];
    }
  }

  /** A union inside `depth` lists. */
  function Nested(members: seq<Ty>, depth: nat): Ty {
    if depth == 0 then Union(members) else Generic(0, [Nested(members, depth - 1)])
  }

  // ---- the cache ----

  const MAX_ENTRIES: nat := 4096

  datatype Entry<V> = Entry(model: Ty, adapter: Option<V>)

  /** The dictionary, in insertion order, and the builder it stands in for. */
  class Cache<V> {
    const build: Ty -> Option<V>
    var entries: seq<(Key, Entry<V>)>

    ghost predicate Valid()
      reads this
    {
      && |entries| <= MAX_ENTRIES
      && (forall i :: 0 <= i < |entries| ==> Faithful(entries[i]))
      && forall i, j :: 0 <= i < j < |entries| ==> entries[i].1.model != entries[j].1.model
    }

    ghost predicate Faithful(e: (Key, Entry<V>)) {
      e.0 == KeyOf(e.1.model) && e.1.adapter == build(e.1.model)
    }

    /** The model's adapter is cached. */
    ghost predicate Cached(model: Ty)
      reads this
    {
      exists i :: 0 <= i < |entries| && entries[i].1.model == model
    }

    constructor (build: Ty -> Option<V>)
      ensures Valid() && this.build == build && entries == []
    {
      this.build := build;
      entries := [];
    }

    /** Where the dictionary has the model's key, by equality of keys, or `|entries|`. */
    method Find(model: Ty) returns (i: nat)
      requires Valid()
      ensures i <= |entries|
      ensures i < |entries| ==> entries[i] == (KeyOf(model), Entry(model, build(model)))
      ensures i == |entries| <==> !Cached(model)
    {
      var key := KeyOf(model);
      i := 0;
      while i < |entries|
        invariant i <= |entries|
        invariant forall j :: 0 <= j < i ==> entries[j].1.model != model
      {
        KeysTellTypesApart(entries[i].1.model, model);
        assert Faithful(entries[i]);
        if KeyEq(entries[i].0, key) {
          return;
        }
        i := i + 1;
      }
    }

    /** `cache.get(key)`. */
    method Get(model: Ty) returns (entry: Option<Entry<V>>)
      requires Valid()
      ensures entry.Some? <==> Cached(model)
      ensures entry.Some? ==> entry.value == Entry(model, build(model))
    {
      var i := Find(model);
      return if i < |entries| then Some(entries[i].1) else None;
    }

    /** `_store`. A model cached meanwhile, by a racing first call, is built again and its entry assigned anew. */
    method Store(model: Ty) returns (entry: Entry<V>)
      requires Valid()
      modifies this
      ensures Valid() && Cached(model) && entry == Entry(model, build(model))
      ensures entries
           == if |old(entries)| == 4096 then [(KeyOf(model), entry)]
              else if old(Cached(model)) then old(entries)
              else old(entries) + [(KeyOf(model), entry)]
    {
      entry := Entry(model, build(model));
      if |entries| >= MAX_ENTRIES {
        entries := [];
      }
      var i := Find(model);
      if i < |entries| {
        entries := entries[i := (entries[i].0, entry)];
      } else {
        entries := entries + [(KeyOf(model), entry)];
      }
      assert entries[i].1.model == model;
    }

    /** `_lookup`: what the builder would give, built anew only for a model that is not cached. */
    method Lookup(model: Ty) returns (adapter: Option<V>)
      requires Valid()
      modifies this
      ensures Valid() && Cached(model) && adapter == build(model) && |entries| <= 4096
      ensures old(Cached(model)) ==> entries == old(entries)
      ensures !old(Cached(model)) ==>
                entries == (if |old(entries)| == 4096 then [] else old(entries)) + [(KeyOf(model), Entry(model, adapter))]
    {
      var found := Get(model);
      if found.Some? {
        return found.value.adapter;
      }
      var entry := Store(model);
      return entry.adapter;
    }

    /** Any sequence of lookups gives what building each time would, and never more than `MAX_ENTRIES` entries. */
    method LookupAll(models: seq<Ty>) returns (adapters: seq<Option<V>>)
      requires Valid()
      modifies this
      ensures Valid() && |entries| <= 4096
      ensures adapters == seq(|models|, i requires 0 <= i < |models| => build(models[i]))
    {
      adapters := [];
      for i := 0 to |models|
        invariant Valid() && |adapters| == i
        invariant forall j :: 0 <= j < i ==> adapters[j] == build(models[j])
      {
        var adapter := Lookup(models[i]);
        adapters := adapters + [adapter];
      }
    }
  }
}
