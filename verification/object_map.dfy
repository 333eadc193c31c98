/** `ObjectMap` (client/src/utils/object-map.ts): a keyed registry over a JavaScript `Map`.
    A JavaScript `Map` iterates in insertion order and `set` on a present key keeps
    that key's place, so the model is an association list of entries; the Phaser
    group that mirrors the values is rendering state and is not modelled. */
module ObjectMaps {
  import opened Wrappers

  datatype ObjectMap<K, V> = ObjectMap(entries: seq<(K, V)>)

  /** No key is stored twice. Every operation below preserves it. */
  ghost predicate Valid<K, V>(m: ObjectMap<K, V>) {
    forall i, j :: 0 <= i < j < |m.entries| ==> m.entries[i].0 != m.entries[j].0
  }

  function Keys<K, V>(m: ObjectMap<K, V>): (ks: set<K>)
  {
    set i | 0 <= i < |m.entries| :: m.entries[i].0
  }

  /** The abstract content: the map from each stored key to its value. */
  ghost function Content<K, V>(m: ObjectMap<K, V>): map<K, V>
    decreases |m.entries|
  {
    if m.entries == [] then map[]
    else Content(ObjectMap(m.entries[1..]))[m.entries[0].0 := m.entries[0].1]
  }

  /** The empty registry (the constructor). */
  function Empty<K, V>(): (m: ObjectMap<K, V>)
    ensures Valid(m) && Content(m) == map[]
  {
    ObjectMap([])
  }

  /** `get(key)`. */
  function Get<K(==), V>(m: ObjectMap<K, V>, key: K): (r: Option<V>)
    ensures r.Some? <==> key in Content(m)
    ensures r.Some? ==> Content(m)[key] == r.value
    decreases |m.entries|
  {
    if m.entries == [] then None
    else if m.entries[0].0 == key then Some(m.entries[0].1)
    else Get(ObjectMap(m.entries[1..]), key)
  }

  /** `search(key)` delegates to `get`. */
  function Search<K(==), V>(m: ObjectMap<K, V>, key: K): (r: Option<V>)
    ensures r.Some? <==> key in Content(m)
    ensures r.Some? ==> Content(m)[key] == r.value
  {
    Get(m, key)
  }

  /** The stored keys are exactly the keys of the content. */
  lemma {:induction false} ContentKeys<K, V>(m: ObjectMap<K, V>)
    ensures Content(m).Keys == Keys(m)
    decreases |m.entries|
  {
    if m.entries != [] {
      var rest := ObjectMap(m.entries[1..]);
      ContentKeys(rest);
      assert Keys(m) == Keys(rest) + {m.entries[0].0} by {
        forall k | k in Keys(m) ensures k in Keys(rest) + {m.entries[0].0} {
          var i :| 0 <= i < |m.entries| && m.entries[i].0 == k;
          if i > 0 { assert rest.entries[i - 1].0 == k; }
        }
        forall k | k in Keys(rest) ensures k in Keys(m) {
          var i :| 0 <= i < |rest.entries| && rest.entries[i].0 == k;
          assert m.entries[i + 1].0 == k;
        }
      }
    }
  }

  /** `add(key, object)`: `Map.set` — overwrite in place, or append a new entry. */
  function Add<K(==), V>(m: ObjectMap<K, V>, key: K, value: V): (r: ObjectMap<K, V>)
    ensures Content(r) == Content(m)[key := value]
    ensures key in Content(m) ==>
      |r.entries| == |m.entries| && forall i :: 0 <= i < |m.entries| ==> r.entries[i].0 == m.entries[i].0
    ensures key !in Content(m) ==> r.entries == m.entries + [(key, value)]
    ensures forall i :: 0 <= i < |m.entries| && m.entries[i].0 != key ==> r.entries[i] == m.entries[i]
    decreases |m.entries|
  {
    if m.entries == [] then ObjectMap([(key, value)])
    else if m.entries[0].0 == key then ObjectMap([(key, value)] + m.entries[1..])
    else ObjectMap([m.entries[0]] + Add(ObjectMap(m.entries[1..]), key, value).entries)
  }

  /** In a registry without duplicate keys, each entry is what its key reads as. */
  lemma {:induction false} ContentAt<K, V>(m: ObjectMap<K, V>, i: int)
    requires Valid(m) && 0 <= i < |m.entries|
    ensures m.entries[i].0 in Content(m) && Content(m)[m.entries[i].0] == m.entries[i].1
    decreases |m.entries|
  {
    if i > 0 {
      var rest := ObjectMap(m.entries[1..]);
      assert rest.entries[i - 1] == m.entries[i];
      assert Valid(rest) by {
        forall a, b | 0 <= a < b < |rest.entries| ensures rest.entries[a].0 != rest.entries[b].0 {
          assert rest.entries[a] == m.entries[a + 1] && rest.entries[b] == m.entries[b + 1];
        }
      }
      ContentAt(rest, i - 1);
    }
  }

  /** After `add(key, v)`, `get(key)` is `v`, every other key reads as before, and no key is duplicated. */
  lemma AddThenGet<K, V>(m: ObjectMap<K, V>, key: K, value: V, other: K)
    requires Valid(m)
    ensures Get(Add(m, key, value), key) == Some(value)
    ensures other != key ==> Get(Add(m, key, value), other) == Get(m, other)
    ensures Valid(Add(m, key, value))
  {
    var r := Add(m, key, value);
    ContentKeys(m);
    if key !in Content(m) {
      assert key !in Keys(m);
    }
  }

  /** The entries whose key differs from `key`, in order. */
  function Without<K(==), V>(entries: seq<(K, V)>, key: K): (r: seq<(K, V)>)
    ensures |r| <= |entries|
    ensures forall i :: 0 <= i < |r| ==> r[i].0 != key && r[i] in entries
    ensures Content(ObjectMap(r)) == Content(ObjectMap(entries)) - {key}
  {
    if entries == [] then []
    else if entries[0].0 == key then Without(entries[1..], key)
    else [entries[0]] + Without(entries[1..], key)
  }

  /** Dropping the first entry keeps the keys distinct, and that entry's key occurs nowhere after it. */
  lemma TailValid<K, V>(entries: seq<(K, V)>)
    requires entries != [] && Valid(ObjectMap(entries))
    ensures Valid(ObjectMap(entries[1..]))
    ensures forall e :: e in entries[1..] ==> e.0 != entries[0].0
  {
    var rest := entries[1..];
    forall i, j | 0 <= i < j < |rest| ensures rest[i].0 != rest[j].0 {
      assert rest[i] == entries[i + 1] && rest[j] == entries[j + 1];
    }
    forall e | e in rest ensures e.0 != entries[0].0 {
      var i :| 0 <= i < |rest| && rest[i] == e;
      assert entries[i + 1] == e;
    }
  }

  /** Removing keeps the remaining entries in order, so no key becomes duplicated. */
  lemma {:induction false} WithoutValid<K, V>(entries: seq<(K, V)>, key: K)
    requires Valid(ObjectMap(entries))
    ensures Valid(ObjectMap(Without(entries, key)))
  {
    if entries != [] {
      var rest := entries[1..];
      TailValid(entries);
      WithoutValid(rest, key);
      if entries[0].0 != key {
        var w := Without(rest, key);
        var r := [entries[0]] + w;
        assert r == Without(entries, key);
        forall i, j | 0 <= i < j < |r| ensures r[i].0 != r[j].0 {
          assert r[j] == w[j - 1] && r[j] in rest;
          if i > 0 {
            assert r[i] == w[i - 1];
          }
        }
      }
    }
  }

  /** `remove(key)`: true when the key was present; the key is gone afterwards. */
  function Remove<K(==), V>(m: ObjectMap<K, V>, key: K): (r: (ObjectMap<K, V>, bool))
    ensures r.1 <==> key in Content(m)
    ensures Content(r.0) == Content(m) - {key}
    ensures !r.1 ==> r.0 == m
  {
    if Get(m, key).Some? then (ObjectMap(Without(m.entries, key)), true) else (m, false)
  }

  /** After `remove(key)` the key reads as absent, every other key as before, and no key is duplicated. */
  lemma RemoveThenGet<K, V>(m: ObjectMap<K, V>, key: K, other: K)
    requires Valid(m)
    ensures Valid(Remove(m, key).0)
    ensures Get(Remove(m, key).0, key) == None
    ensures other != key ==> Get(Remove(m, key).0, other) == Get(m, other)
  {
    if key in Content(m) {
      WithoutValid(m.entries, key);
    }
  }

  /** `clear()`: every key is absent afterwards. */
  function Clear<K, V>(m: ObjectMap<K, V>): (r: ObjectMap<K, V>)
    ensures Content(r) == map[] && Keys(r) == {}
  {
    ObjectMap([])
  }

  /** How many stored values satisfy `p`. */
  function CountWhere<K, V>(entries: seq<(K, V)>, p: V -> bool): (n: nat)
    ensures n <= |entries|
  {
    if entries == [] then 0 else (if p(entries[0].1) then 1 else 0) + CountWhere(entries[1..], p)
  }

  /** The values of `entries` satisfying `p`, in order. */
  function Kept<K, V>(entries: seq<(K, V)>, p: V -> bool): seq<V>
  {
    if entries == [] then [] else (if p(entries[0].1) then [entries[0].1] else []) + Kept(entries[1..], p)
  }

  lemma {:induction false} KeptSpec<K, V>(entries: seq<(K, V)>, p: V -> bool)
    ensures |Kept(entries, p)| == CountWhere(entries, p)
    ensures var r := Kept(entries, p);
      forall j :: 0 <= j < |r| ==> p(r[j]) && exists i :: 0 <= i < |entries| && entries[i].1 == r[j]
    ensures forall i :: 0 <= i < |entries| && p(entries[i].1) ==> entries[i].1 in Kept(entries, p)
    decreases |entries|
  {
    if entries != [] {
      KeptSpec(entries[1..], p);
      var rest := Kept(entries[1..], p);
      var r := Kept(entries, p);
      assert forall i :: 0 <= i < |entries| - 1 ==> entries[1..][i] == entries[i + 1];
      if p(entries[0].1) {
        assert r == [entries[0].1] + rest;
        forall j | 0 <= j < |r| ensures p(r[j]) && exists i :: 0 <= i < |entries| && entries[i].1 == r[j] {
          if j > 0 {
            assert r[j] == rest[j - 1];
            var i :| 0 <= i < |entries| - 1 && entries[1..][i].1 == rest[j - 1];
            assert entries[i + 1].1 == r[j];
          } else {
            assert entries[0].1 == r[0];
          }
        }
      } else {
        assert r == rest;
        forall j | 0 <= j < |r| ensures p(r[j]) && exists i :: 0 <= i < |entries| && entries[i].1 == r[j] {
          var i :| 0 <= i < |entries| - 1 && entries[1..][i].1 == rest[j];
          assert entries[i + 1].1 == r[j];
        }
      }
    }
  }

  /** Keeping splits over consecutive runs of entries. */
  lemma {:induction false} KeptAppend<K, V>(x: seq<(K, V)>, y: seq<(K, V)>, p: V -> bool)
    ensures Kept(x + y, p) == Kept(x, p) + Kept(y, p)
    decreases |x|
  {
    if x == [] {
      assert x + y == y;
    } else {
      assert (x + y)[0] == x[0] && (x + y)[1..] == x[1..] + y;
      KeptAppend(x[1..], y, p);
      var head := if p(x[0].1) then [x[0].1] else [];
      assert head + (Kept(x[1..], p) + Kept(y, p)) == (head + Kept(x[1..], p)) + Kept(y, p);
    }
  }

  /** `filter(predicate)`: the stored values satisfying the predicate, in insertion order. */
  function Filter<K, V(==)>(m: ObjectMap<K, V>, p: V -> bool): (r: seq<V>)
    ensures |r| == CountWhere(m.entries, p)
    ensures forall j :: 0 <= j < |r| ==> p(r[j]) && exists i :: 0 <= i < |m.entries| && m.entries[i].1 == r[j]
    ensures forall i :: 0 <= i < |m.entries| && p(m.entries[i].1) ==> m.entries[i].1 in r
  {
    KeptSpec(m.entries, p);
    Kept(m.entries, p)
  }

  /** A single entry is kept exactly when its value satisfies the predicate. */
  lemma FilterOne<K, V>(e: (K, V), p: V -> bool)
    ensures Filter(ObjectMap([e]), p) == if p(e.1) then [e.1] else []
  {
    assert [e][1..] == [];
  }

  /** Filtering splits over consecutive runs of entries: the kept values stay in insertion
      order, each occurrence kept once. With `FilterOne` this fixes `Filter` entirely. */
  lemma FilterAppend<K, V>(x: seq<(K, V)>, y: seq<(K, V)>, p: V -> bool)
    ensures Filter(ObjectMap(x + y), p) == Filter(ObjectMap(x), p) + Filter(ObjectMap(y), p)
  {
    KeptAppend(x, y, p);
  }

  /** `searchByCondition(predicate)` delegates to `filter`. */
  function SearchByCondition<K, V(==)>(m: ObjectMap<K, V>, p: V -> bool): (r: seq<V>)
    ensures r == Filter(m, p)
    ensures |r| == CountWhere(m.entries, p)
    ensures forall j :: 0 <= j < |r| ==> p(r[j]) && exists i :: 0 <= i < |m.entries| && m.entries[i].1 == r[j]
    ensures forall i :: 0 <= i < |m.entries| && p(m.entries[i].1) ==> m.entries[i].1 in r
  {
    Filter(m, p)
  }

  /** `map(callback)`: one result per stored entry, the callback receiving (object, key). */
  function MapEntries<K, V, U>(m: ObjectMap<K, V>, f: (V, K) -> U): (r: seq<U>)
    ensures |r| == |m.entries|
    ensures forall i :: 0 <= i < |r| ==> r[i] == f(m.entries[i].1, m.entries[i].0)
    decreases |m.entries|
  {
    if m.entries == [] then []
    else [f(m.entries[0].1, m.entries[0].0)] + MapEntries(ObjectMap(m.entries[1..]), f)
  }

  /** The map a sequence of `Map.set` calls builds: the last value given for a key wins. */
  ghost function LastWins<K, V>(entries: seq<(K, V)>): map<K, V>
  {
    if entries == [] then map[]
    else LastWins(entries[..|entries| - 1])[entries[|entries| - 1].0 := entries[|entries| - 1].1]
  }

  /** `new Map(entries)`: the entries are `set` one after another, so a repeated key
      keeps its first place and takes its last value. */
  function FromEntries<K(==), V>(entries: seq<(K, V)>): (m: ObjectMap<K, V>)
    ensures Valid(m)
    ensures Content(m) == LastWins(entries)
    decreases |entries|
  {
    if entries == [] then Empty()
    else
      var prefix := FromEntries(entries[..|entries| - 1]);
      var last := entries[|entries| - 1];
      AddThenGet(prefix, last.0, last.1, last.0);
      Add(prefix, last.0, last.1)
  }

  /** Building from entries whose keys are distinct keeps the entries as given. */
  lemma {:induction false} FromDistinctEntries<K, V>(entries: seq<(K, V)>)
    requires Valid(ObjectMap(entries))
    ensures FromEntries(entries).entries == entries
    decreases |entries|
  {
    if entries != [] {
      var init := entries[..|entries| - 1];
      var last := entries[|entries| - 1];
      assert Valid(ObjectMap(init)) by {
        forall a, b | 0 <= a < b < |init| ensures init[a].0 != init[b].0 {
          assert init[a] == entries[a] && init[b] == entries[b];
        }
      }
      FromDistinctEntries(init);
      var prefix := FromEntries(init);
      assert last.0 !in Keys(prefix) by {
        forall a | 0 <= a < |init| ensures init[a].0 != last.0 {
          assert init[a] == entries[a];
        }
      }
      assert last.0 !in Content(prefix) by {
        ContentKeys(prefix);
      }
      assert FromEntries(entries) == Add(prefix, last.0, last.1);
      assert init + [last] == entries;
    }
  }

  /** Setting a key to the value it already holds leaves the registry as it was. */
  lemma AddExisting<K, V>(m: ObjectMap<K, V>, i: int)
    requires Valid(m) && 0 <= i < |m.entries|
    ensures Add(m, m.entries[i].0, m.entries[i].1) == m
  {
    var (key, value) := m.entries[i];
    var r := Add(m, key, value);
    ContentAt(m, i);
    AddThenGet(m, key, value, key);
    ContentAt(r, i);
    forall j | 0 <= j < |m.entries| ensures r.entries[j] == m.entries[j] {
      if j != i {
        assert m.entries[j].0 != key;
      }
    }
  }
}
