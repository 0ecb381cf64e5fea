/** The mutable containers the editor writes into: `Set` and `Map` with the
    insertion-order semantics of sections 24.2 and 24.1 of ECMA-262 (2023 edition),
    arrays, and plain objects. Each class keeps its contents in a sequence that its
    methods reassign; the functions on sequences are the specification of those
    methods and are also used by the value-level model. */
module JsHeap {
  import opened Seqs
  import opened JsValue

  // ---------------------------------------------------------------------------
  // Set: duplicate-free, in insertion order

  /** `set.add(v)`: a new element goes last, a present one stays where it is. */
  function SetAdd(s: seq<Value>, v: Value): (r: seq<Value>)
    ensures v in r
    ensures forall y | y in r :: y in s || y == v
    ensures forall y | y in s :: y in r
    ensures NoDup(s) ==> NoDup(r)
    ensures v in s ==> r == s
    ensures v !in s ==> r == s + [v]
  {
    if v in s then s
    else
      if NoDup(s) then AppendNoDup(s, v); s + [v]
      else s + [v]
  }

  /** An edited Set element: `set.delete(x); set.add(value)`. */
  function SetReplace(s: seq<Value>, prev: Value, next: Value): seq<Value> {
    SetAdd(Without(s, prev), next)
  }

  /** After replacing, the new element is present, the old one is gone unless it is
      the new one, every other element stays, and no element is duplicated. */
  lemma SetReplaceContents(s: seq<Value>, prev: Value, next: Value)
    requires NoDup(s)
    ensures next in SetReplace(s, prev, next)
    ensures prev in SetReplace(s, prev, next) <==> prev == next
    ensures forall y | y != prev && y != next :: y in SetReplace(s, prev, next) <==> y in s
    ensures NoDup(SetReplace(s, prev, next))
  {
    WithoutNoDup(s, prev);
  }

  /** Re-entering the same element is not a no-op: it moves to the end. */
  lemma {:induction false} SetReplaceSameMovesLast(s: seq<Value>, x: Value)
    requires NoDup(s) && x in s
    ensures SetReplace(s, x, x) == Without(s, x) + [x]
    ensures |SetReplace(s, x, x)| == |s|
  {
    WithoutPresentNoDup(s, x);
  }

  // ---------------------------------------------------------------------------
  // Map: entries with distinct keys, in insertion order

  function MapKeys(es: seq<Entry>): (ks: seq<Value>)
    ensures |ks| == |es|
  {
    if es == [] then [] else [es[0].key] + MapKeys(es[1..])
  }

  predicate ValidMap(es: seq<Entry>) {
    NoDup(MapKeys(es))
  }

  /** `map.get(k)`, with `None` for a missing key. */
  function Lookup(es: seq<Entry>, k: Value): Option<Value> {
    if es == [] then None
    else if es[0].key == k then Some(es[0].val)
    else Lookup(es[1..], k)
  }

  /** A key is found exactly when it is one of the map's keys, and then with a value
      stored under it. */
  lemma {:induction false} LookupSpec(es: seq<Entry>, k: Value)
    ensures Lookup(es, k).None? <==> k !in MapKeys(es)
    ensures Lookup(es, k).Some? ==> Entry(k, Lookup(es, k).value) in es
  {
    if es != [] {
      LookupSpec(es[1..], k);
      assert MapKeys(es) == [es[0].key] + MapKeys(es[1..]);
    }
  }

  /** `map.delete(k)`. */
  function MapDelete(es: seq<Entry>, k: Value): (r: seq<Entry>)
    ensures MapKeys(r) == Without(MapKeys(es), k)
    ensures Lookup(r, k).None?
    ensures forall k' | k' != k :: Lookup(r, k') == Lookup(es, k')
  {
    if es == [] then []
    else if es[0].key == k then MapDelete(es[1..], k)
    else [es[0]] + MapDelete(es[1..], k)
  }

  /** `map.set(k, v)`: an existing key keeps its position, a new key goes last. */
  function MapSet(es: seq<Entry>, k: Value, v: Value): seq<Entry> {
    if es == [] then [Entry(k, v)]
    else if es[0].key == k then [Entry(k, v)] + es[1..]
    else [es[0]] + MapSet(es[1..], k, v)
  }

  /** How keys and lookups see an entry put in front. */
  lemma MapConsKeys(e: Entry, es: seq<Entry>)
    ensures MapKeys([e] + es) == [e.key] + MapKeys(es)
  {
    assert ([e] + es)[1..] == es;
  }

  /** After `map.set(k, v)`, `k` holds `v`. */
  lemma {:induction false} MapSetLookupSame(es: seq<Entry>, k: Value, v: Value)
    ensures Lookup(MapSet(es, k, v), k) == Some(v)
  {
    if es != [] && es[0].key != k {
      MapSetLookupSame(es[1..], k, v);
    }
  }

  /** After `map.set(k, v)`, every other key holds what it held. */
  lemma {:induction false} MapSetLookupOther(es: seq<Entry>, k: Value, v: Value, k': Value)
    requires k' != k
    ensures Lookup(MapSet(es, k, v), k') == Lookup(es, k')
  {
    if es != [] && es[0].key != k {
      MapSetLookupOther(es[1..], k, v, k');
    }
  }

  /** `map.set(k, v)` keeps the key order, and appends `k` when it is new. */
  lemma {:induction false} MapSetKeys(es: seq<Entry>, k: Value, v: Value)
    ensures MapKeys(MapSet(es, k, v)) == if k in MapKeys(es) then MapKeys(es) else MapKeys(es) + [k]
  {
    if es == [] {
      MapConsKeys(Entry(k, v), []);
    } else {
      assert MapKeys(es) == [es[0].key] + MapKeys(es[1..]);
      if es[0].key == k {
        MapConsKeys(Entry(k, v), es[1..]);
        assert k in MapKeys(es);
      } else {
        MapSetKeys(es[1..], k, v);
        MapConsKeys(es[0], MapSet(es[1..], k, v));
        assert k in MapKeys(es) <==> k in MapKeys(es[1..]);
        if k !in MapKeys(es[1..]) {
          assert [es[0].key] + (MapKeys(es[1..]) + [k]) == MapKeys(es) + [k];
        }
      }
    }
  }

  /** Both together, for every key. */
  lemma MapSetContents(es: seq<Entry>, k: Value, v: Value)
    ensures Lookup(MapSet(es, k, v), k) == Some(v)
    ensures forall k' | k' != k :: Lookup(MapSet(es, k, v), k') == Lookup(es, k')
    ensures MapKeys(MapSet(es, k, v)) == if k in MapKeys(es) then MapKeys(es) else MapKeys(es) + [k]
  {
    MapSetLookupSame(es, k, v);
    forall k' | k' != k ensures Lookup(MapSet(es, k, v), k') == Lookup(es, k') {
      MapSetLookupOther(es, k, v, k');
    }
    MapSetKeys(es, k, v);
  }

  lemma MapDeleteValid(es: seq<Entry>, k: Value)
    requires ValidMap(es)
    ensures ValidMap(MapDelete(es, k))
  {
    WithoutNoDup(MapKeys(es), k);
  }

  lemma MapSetValid(es: seq<Entry>, k: Value, v: Value)
    requires ValidMap(es)
    ensures ValidMap(MapSet(es, k, v))
  {
    MapSetContents(es, k, v);
    if k !in MapKeys(es) {
      AppendNoDup(MapKeys(es), k);
    }
  }

  /** An edited Map key: `map.delete(key); map.set(newKey, value)`. */
  function MapRename(es: seq<Entry>, key: Value, newKey: Value, value: Value): seq<Entry> {
    MapSet(MapDelete(es, key), newKey, value)
  }

  /** After a key edit the new key holds the value, the old key is gone unless it is
      the new key, every other key keeps its value, and keys stay distinct. A new key
      that was already present elsewhere is overwritten, so the map shrinks. */
  lemma MapRenameContents(es: seq<Entry>, key: Value, newKey: Value, value: Value)
    requires ValidMap(es)
    ensures Lookup(MapRename(es, key, newKey, value), newKey) == Some(value)
    ensures key != newKey ==> Lookup(MapRename(es, key, newKey, value), key).None?
    ensures forall k | k != key && k != newKey :: Lookup(MapRename(es, key, newKey, value), k) == Lookup(es, k)
    ensures ValidMap(MapRename(es, key, newKey, value))
  {
    MapDeleteValid(es, key);
    MapSetValid(MapDelete(es, key), newKey, value);
    MapSetContents(MapDelete(es, key), newKey, value);
  }

  /** A key edit onto another key that is already present drops one entry. */
  lemma {:induction false} MapRenameOntoExistingShrinks(es: seq<Entry>, key: Value, newKey: Value, value: Value)
    requires ValidMap(es) && key in MapKeys(es) && newKey in MapKeys(es) && key != newKey
    ensures |MapRename(es, key, newKey, value)| == |es| - 1
  {
    WithoutPresentNoDup(MapKeys(es), key);
    assert newKey in Without(MapKeys(es), key);
    MapSetKeys(MapDelete(es, key), newKey, value);
  }

  // ---------------------------------------------------------------------------
  // Array

  /** `a[i] = v`: inside the array one element changes; past its end the array grows
      and the gap reads as `undefined`. */
  function ArrayPut(s: seq<Value>, i: nat, v: Value): (r: seq<Value>)
    ensures |r| == if i < |s| then |s| else i + 1
    ensures r[i] == v
    ensures forall j | 0 <= j < |s| && j != i :: r[j] == s[j]
    ensures forall j | |s| <= j < i :: r[j] == Undef
  {
    if i < |s| then s[i := v] else s + seq(i - |s|, _ => Undef) + [v]
  }

  // ---------------------------------------------------------------------------
  // Heap objects

  class JsSet {
    var elems: seq<Value>

    ghost predicate Valid()
      reads this
    {
      NoDup(elems)
    }

    constructor ()
      ensures Valid() && elems == []
    {
      elems := [];
    }

    /** `set.delete(x)`: reports whether `x` was present. */
    method Delete(x: Value) returns (found: bool)
      requires Valid()
      modifies this
      ensures Valid()
      ensures found == (x in old(elems))
      ensures elems == Without(old(elems), x)
    {
      found := x in elems;
      WithoutNoDup(elems, x);
      elems := Without(elems, x);
    }

    /** `set.add(x)`. */
    method Add(x: Value)
      requires Valid()
      modifies this
      ensures Valid()
      ensures elems == SetAdd(old(elems), x)
    {
      elems := SetAdd(elems, x);
    }
  }

  class JsMap {
    var entries: seq<Entry>

    ghost predicate Valid()
      reads this
    {
      ValidMap(entries)
    }

    constructor ()
      ensures Valid() && entries == []
    {
      entries := [];
    }

    /** `map.delete(k)`: reports whether `k` was present. */
    method Delete(k: Value) returns (found: bool)
      requires Valid()
      modifies this
      ensures Valid()
      ensures found == (k in MapKeys(old(entries)))
      ensures entries == MapDelete(old(entries), k)
    {
      LookupSpec(entries, k);
      found := Lookup(entries, k).Some?;
      MapDeleteValid(entries, k);
      entries := MapDelete(entries, k);
    }

    /** `map.set(k, v)`. */
    method Set(k: Value, v: Value)
      requires Valid()
      modifies this
      ensures Valid()
      ensures entries == MapSet(old(entries), k, v)
    {
      MapSetValid(entries, k, v);
      entries := MapSet(entries, k, v);
    }
  }

  class JsArray {
    var elems: seq<Value>

    constructor ()
      ensures elems == []
    {
      elems := [];
    }

    /** `a[i] = v`. */
    method Assign(i: nat, v: Value)
      modifies this
      ensures elems == ArrayPut(old(elems), i, v)
    {
      elems := ArrayPut(elems, i, v);
    }
  }

  class JsObject {
    var props: seq<Prop>

    ghost predicate Valid()
      reads this
    {
      UniqueKeys(props)
    }

    constructor ()
      ensures Valid() && props == []
    {
      props := [];
    }

    /** `o[k]`. */
    function Read(k: string): Value
      reads this
    {
      Get(props, k)
    }

    /** `o[k] = v`. */
    method Write(k: string, v: Value)
      requires Valid()
      modifies this
      ensures Valid()
      ensures props == Put(old(props), k, v)
    {
      PutUnique(props, k, v);
      props := Put(props, k, v);
    }
  }
}
