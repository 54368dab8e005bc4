/** A map that keeps the order in which its keys came, with an index into its list of items. */
module OrderedMaps {
  import opened Options

  datatype Item<K, V> = Item(key: K, value: V)

  /** The list alone: an association list without repeated keys. */
  predicate Distinct<K(==), V>(items: seq<Item<K, V>>) {
    forall i, j | 0 <= i < j < |items| :: items[i].key != items[j].key
  }

  /** The first place of a key, or the length. */
  function Find<K(==), V>(items: seq<Item<K, V>>, key: K): (i: nat)
    ensures i <= |items|
    ensures i < |items| ==> items[i].key == key
    ensures forall j | 0 <= j < i :: items[j].key != key
  {
    if items == [] || items[0].key == key then 0 else 1 + Find(items[1..], key)
  }

  function Put<K(==), V>(items: seq<Item<K, V>>, key: K, value: V): seq<Item<K, V>> {
    var i := Find(items, key);
    if i < |items| then items[i := Item(key, value)] else items + [Item(key, value)]
  }

  function Remove<K(==), V>(items: seq<Item<K, V>>, key: K): seq<Item<K, V>> {
    var i := Find(items, key);
    if i < |items| then items[..i] + items[i + 1..] else items
  }

  function Keys<K, V>(items: seq<Item<K, V>>): seq<K> {
    if items == [] then [] else [items[0].key] + Keys(items[1..])
  }

  function AsMap<K(==), V>(items: seq<Item<K, V>>): map<K, V> {
    if items == [] then map[] else AsMap(items[..|items| - 1])[items[|items| - 1].key := items[|items| - 1].value]
  }

  /** Where the item at `j` goes when the one at `i` is deleted. */
  function Shifted(j: int, i: int): int {
    if j < i then j else j - 1
  }

  /** An index that is one off from `i` on. */
  ghost predicate Cut<K, V>(items: seq<Item<K, V>>, idx: map<K, nat>, i: nat) {
    && (forall k <- idx :: 0 <= Shifted(idx[k], i) < |items| && items[Shifted(idx[k], i)].key == k)
    && (forall k | 0 <= k < |items| :: items[k].key in idx && idx[items[k].key] == if k < i then k else k + 1)
  }

  lemma CutIndex<K, V>(items: seq<Item<K, V>>, idx: map<K, nat>, i: nat)
    requires i < |items| && Indexed(items, idx)
    ensures Cut(items[..i] + items[i + 1..], idx - {items[i].key}, i)
  {
  }

  /** The index maps each key to its place in the list. */
  ghost predicate Indexed<K, V>(items: seq<Item<K, V>>, idx: map<K, nat>) {
    && (forall key <- idx :: idx[key] < |items| && items[idx[key]].key == key)
    && (forall i | 0 <= i < |items| :: items[i].key in idx && idx[items[i].key] == i)
  }

  class OrderedMap<K(==), V> {
    var items: seq<Item<K, V>>
    var idx: map<K, nat>

    ghost predicate Valid()
      reads this
    {
      Indexed(items, idx)
    }

    constructor ()
      ensures Valid() && items == []
    {
      items, idx := [], map[];
    }

    method Set(key: K, value: V)
      requires Valid()
      modifies this
      ensures Valid() && items == Put(old(items), key, value)
    {
      Located(items, idx, key);
      if key in idx {
        items := items[idx[key] := items[idx[key]].(value := value)];
        return;
      }
      items := items + [Item(key, value)];
      idx := idx[key := |items| - 1];
    }

    method Get(key: K) returns (value: Option<V>)
      requires Valid()
      ensures value == if key in AsMap(items) then Some(AsMap(items)[key]) else None
    {
      Located(items, idx, key);
      FoundIn(items, key);
      if key !in idx {
        return None;
      }
      var i := idx[key];
      if i >= |items| {
        return None;
      }
      if items[i].key != key {
        return None;
      }
      return Some(items[i].value);
    }

    method Delete(key: K) returns (found: bool)
      requires Valid()
      modifies this
      ensures Valid() && items == Remove(old(items), key)
      ensures found <==> key in old(idx)
    {
      Located(items, idx, key);
      if key !in idx {
        return false;
      }
      var i := idx[key];
      RemoveDistinct(items, key);
      CutIndex(items, idx, i);
      idx := idx - {key};
      items := items[..i] + items[i + 1..];
      Reindex(i);
      found := true;
    }

    /** Corrects the index of the items from the deleted one on. */
    method Reindex(i: nat)
      requires i <= |items| && Distinct(items) && Cut(items, idx, i)
      modifies this`idx
      ensures Valid()
    {
      for j := i to |items|
        invariant idx.Keys == old(idx.Keys)
        invariant forall k | 0 <= k < |items| ::
          items[k].key in idx && idx[items[k].key] == if k < j then k else k + 1
      {
        idx := idx[items[j].key := j];
      }
    }

    method ToMap() returns (result: map<K, V>)
      ensures result == AsMap(items)
    {
      result := map[];
      for i := 0 to |items|
        invariant result == AsMap(items[..i])
      {
        assert items[..i + 1][..i] == items[..i];
        result := result[items[i].key := items[i].value];
      }
      assert items[..|items|] == items;
    }
  }

  lemma {:induction false} Located<K, V>(items: seq<Item<K, V>>, idx: map<K, nat>, key: K)
    requires Indexed(items, idx)
    ensures Distinct(items)
    ensures key in idx <==> Find(items, key) < |items|
    ensures key in idx ==> idx[key] == Find(items, key)
  {
  }

  /** The map of a list has what the list has first under each key. */
  lemma {:induction false} FoundIn<K, V>(items: seq<Item<K, V>>, key: K)
    requires Distinct(items)
    ensures key in AsMap(items) <==> Find(items, key) < |items|
    ensures key in AsMap(items) ==> AsMap(items)[key] == items[Find(items, key)].value
  {
    if items != [] {
      var rest := items[..|items| - 1];
      FoundIn(rest, key);
      assert forall i | 0 <= i < |rest| :: rest[i] == items[i];
      if Find(rest, key) < |rest| {
        assert items[Find(rest, key)].key == key;
      }
    }
  }

  lemma InMap<K, V>(items: seq<Item<K, V>>, i: nat)
    requires Distinct(items) && i < |items|
    ensures items[i].key in AsMap(items) && AsMap(items)[items[i].key] == items[i].value
  {
    FoundIn(items, items[i].key);
  }

  lemma PutDistinct<K, V>(items: seq<Item<K, V>>, key: K, value: V)
    requires Distinct(items)
    ensures Distinct(Put(items, key, value))
  {
  }

  lemma PutLookup<K, V>(items: seq<Item<K, V>>, key: K, value: V, k: K)
    requires Distinct(items) && Distinct(Put(items, key, value))
    ensures k in AsMap(Put(items, key, value)) <==> k == key || k in AsMap(items)
    ensures k in AsMap(Put(items, key, value)) ==>
      AsMap(Put(items, key, value))[k] == if k == key then value else AsMap(items)[k]
  {
    var items' := Put(items, key, value);
    FoundIn(items, k);
    var i, at := Find(items, k), Find(items, key);
    if k == key {
      InMap(items', at);
    } else if i < |items| {
      InMap(items', i);
    } else {
      FoundIn(items', k);
      assert forall j | 0 <= j < |items'| :: items'[j].key == key || items'[j] == items[j];
    }
  }

  /** Setting a key sets it in the map, and keeps its place if it has one. */
  lemma PutMeans<K, V>(items: seq<Item<K, V>>, key: K, value: V)
    requires Distinct(items)
    ensures Distinct(Put(items, key, value)) && AsMap(Put(items, key, value)) == AsMap(items)[key := value]
    ensures Keys(Put(items, key, value)) == if key in AsMap(items) then Keys(items) else Keys(items) + [key]
  {
    var items' := Put(items, key, value);
    PutDistinct(items, key, value);
    var more := AsMap(items)[key := value];
    var after := AsMap(items');
    forall k <- after ensures k in more && after[k] == more[k] {
      PutLookup(items, key, value, k);
    }
    forall k <- more ensures k in after {
      PutLookup(items, key, value, k);
    }
    SameMap(after, more);
    PutKeys(items, key, value);
  }

  lemma PutKeys<K, V>(items: seq<Item<K, V>>, key: K, value: V)
    requires Distinct(items)
    ensures Keys(Put(items, key, value)) == if key in AsMap(items) then Keys(items) else Keys(items) + [key]
  {
    FoundIn(items, key);
    KeysAt(items);
    KeysAt(Put(items, key, value));
  }

  lemma {:induction false} KeysAt<K, V>(items: seq<Item<K, V>>)
    ensures |Keys(items)| == |items| && forall i | 0 <= i < |items| :: Keys(items)[i] == items[i].key
  {
    if items != [] {
      KeysAt(items[1..]);
    }
  }

  /** Keys other than `key`, in their order. */
  function Without<K(==)>(keys: seq<K>, key: K): seq<K> {
    if keys == [] then []
    else (if keys[0] == key then [] else [keys[0]]) + Without(keys[1..], key)
  }

  lemma {:induction false} WithoutAbsent<K>(keys: seq<K>, key: K)
    requires key !in keys
    ensures Without(keys, key) == keys
  {
    if keys != [] {
      WithoutAbsent(keys[1..], key);
    }
  }

  lemma {:induction false} RemoveKeys<K, V>(items: seq<Item<K, V>>, key: K)
    requires Distinct(items)
    ensures Keys(Remove(items, key)) == Without(Keys(items), key)
  {
    if items != [] {
      var rest := items[1..];
      if items[0].key == key {
        RestWithout(items, key);
        assert Remove(items, key) == rest;
      } else {
        RemoveKeys(rest, key);
        assert Remove(items, key) == [items[0]] + Remove(rest, key);
        assert ([items[0]] + Remove(rest, key))[1..] == Remove(rest, key);
      }
    }
  }

  lemma RestWithout<K, V>(items: seq<Item<K, V>>, key: K)
    requires Distinct(items) && items != [] && items[0].key == key
    ensures Without(Keys(items), key) == Keys(items[1..])
  {
    KeysAt(items[1..]);
    WithoutAbsent(Keys(items[1..]), key);
  }

  lemma SameMap<K, V>(a: map<K, V>, b: map<K, V>)
    requires forall k <- a :: k in b && a[k] == b[k]
    requires forall k <- b :: k in a
    ensures a == b
  {
  }

  lemma RemoveDistinct<K, V>(items: seq<Item<K, V>>, key: K)
    requires Distinct(items)
    ensures Distinct(Remove(items, key))
  {
  }

  lemma RemoveLookup<K, V>(items: seq<Item<K, V>>, key: K, k: K)
    requires Distinct(items) && Distinct(Remove(items, key))
    ensures k in AsMap(Remove(items, key)) <==> k != key && k in AsMap(items)
    ensures k in AsMap(Remove(items, key)) ==> AsMap(Remove(items, key))[k] == AsMap(items)[k]
  {
    var items', i, at := Remove(items, key), Find(items, k), Find(items, key);
    FoundIn(items, k);
    if k != key && i < |items| {
      var i' := if i < at then i else i - 1;
      assert items'[i'] == items[i];
      InMap(items', i');
    } else {
      FoundIn(items', k);
      forall j | 0 <= j < |items'| ensures items'[j].key != k {
        assert items'[j] == items[if j < at then j else j + 1];
      }
    }
  }

  /** Deleting a key deletes it from the map and keeps the order of the others. */
  lemma RemoveMeans<K, V>(items: seq<Item<K, V>>, key: K)
    requires Distinct(items)
    ensures Distinct(Remove(items, key)) && AsMap(Remove(items, key)) == AsMap(items) - {key}
    ensures Keys(Remove(items, key)) == Without(Keys(items), key)
  {
    var before, after := AsMap(items), AsMap(Remove(items, key));
    RemoveDistinct(items, key);
    RemoveKeys(items, key);
    var less := before - {key};
    forall k <- after ensures k in less && after[k] == less[k] {
      RemoveLookup(items, key, k);
    }
    forall k <- less ensures k in after {
      RemoveLookup(items, key, k);
    }
    SameMap(after, less);
  }
}
