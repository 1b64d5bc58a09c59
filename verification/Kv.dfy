/** A JetStream KV bucket: the live value of each key, and the keys in stream order, which is the
    order a listing delivers them in. */
module Kv {
  import opened Wrappers
  import opened Text
  import opened Matching

  function Without(keys: seq<string>, key: string): (r: seq<string>)
    ensures forall k :: k in r <==> k in keys && k != key
  {
    if keys == [] then []
    else if keys[0] == key then Without(keys[1..], key)
    else [keys[0]] + Without(keys[1..], key)
  }

  function Select(keys: seq<string>, filter: string): (r: seq<string>)
    ensures forall k :: k in r <==> k in keys && Matches(filter, k)
  {
    if keys == [] then []
    else if Matches(filter, keys[0]) then [keys[0]] + Select(keys[1..], filter)
    else Select(keys[1..], filter)
  }

  predicate NoDuplicates(keys: seq<string>) {
    forall i, j | 0 <= i < j < |keys| :: keys[i] != keys[j]
  }

  lemma {:induction false} WithoutNoDuplicates(keys: seq<string>, key: string)
    requires NoDuplicates(keys)
    ensures NoDuplicates(Without(keys, key))
  {
    if keys == [] {
    } else {
      WithoutNoDuplicates(keys[1..], key);
      assert keys[0] !in keys[1..];
    }
  }

  lemma {:induction false} SelectNoDuplicates(keys: seq<string>, filter: string)
    requires NoDuplicates(keys)
    ensures NoDuplicates(Select(keys, filter))
  {
    if keys == [] {
    } else {
      SelectNoDuplicates(keys[1..], filter);
      assert keys[0] !in keys[1..];
    }
  }

  lemma AppendNoDuplicates(keys: seq<string>, key: string)
    requires NoDuplicates(keys) && key !in keys
    ensures NoDuplicates(keys + [key])
    ensures forall k :: k in keys + [key] <==> k in keys || k == key
  {
  }

  /** `keys` lists each key of a map once: a JavaScript Map's insertion order. */
  ghost predicate Lists(keys: seq<string>, domain: set<string>) {
    NoDuplicates(keys) && forall k :: k in keys <==> k in domain
  }

  lemma ListsAppend(keys: seq<string>, domain: set<string>, key: string)
    requires Lists(keys, domain) && key !in domain
    ensures Lists(keys + [key], domain + {key})
  {
    AppendNoDuplicates(keys, key);
  }

  function CountIn(keys: seq<string>, which: set<string>): nat {
    if keys == [] then 0
    else CountIn(keys[..|keys| - 1], which) + (if keys[|keys| - 1] in which then 1 else 0)
  }

  lemma {:induction false} CountIsSize(keys: seq<string>, which: set<string>)
    requires NoDuplicates(keys)
    ensures CountIn(keys, which) == |set key | key in keys && key in which|
  {
    var counted := set key | key in keys && key in which;
    if keys == [] {
    } else {
      var front, last := keys[..|keys| - 1], keys[|keys| - 1];
      CountIsSize(front, which);
      assert keys == front + [last];
      assert counted == (set key | key in front && key in which) + (if last in which then {last} else {});
    }
  }

  lemma CountAll(keys: seq<string>, domain: set<string>, which: set<string>)
    requires Lists(keys, domain) && which <= domain
    ensures CountIn(keys, which) == |which|
    ensures |keys| == |domain|
  {
    CountIsSize(keys, which);
    assert (set key | key in keys && key in which) == which;
    CountIsSize(keys, domain);
    assert (set key | key in keys && key in domain) == domain;
    CountEvery(keys, domain);
  }

  lemma {:induction false} CountEvery(keys: seq<string>, which: set<string>)
    requires forall key <- keys :: key in which
    ensures CountIn(keys, which) == |keys|
  {
    if keys == [] {
    } else {
      CountEvery(keys[..|keys| - 1], which);
    }
  }

  /** One more key: the prefix grows by it, and it is new. */
  lemma NextKey(keys: seq<string>, i: nat)
    requires i < |keys| && NoDuplicates(keys)
    ensures keys[..i + 1] == keys[..i] + [keys[i]]
    ensures keys[..i + 1][..i] == keys[..i] && keys[..i + 1][i] == keys[i]
    ensures keys[i] !in keys[..i]
  {
  }

  lemma SubsetSize(a: set<string>, b: set<string>)
    requires a <= b
    ensures |a| <= |b|
  {
    assert b == a + (b - a);
  }

  // ---- buckets -------------------------------------------------------------------------------

  function At<V>(entries: map<string, V>, key: string): Option<V> {
    if key in entries then Some(entries[key]) else None
  }

  lemma SameBucket<V>(a: map<string, V>, b: map<string, V>)
    requires forall key :: At(a, key) == At(b, key)
    ensures a == b
  {
    forall key ensures key in a <==> key in b {
      assert At(a, key) == At(b, key);
    }
    forall key <- a ensures a[key] == b[key] {
      assert At(a, key) == At(b, key);
    }
  }

  /** The bucket after those of `keys` that are removable have been deleted. */
  function Removed<V>(entries: map<string, V>, removable: set<string>, keys: seq<string>): map<string, V> {
    if keys == [] then entries
    else
      var last := keys[|keys| - 1];
      var rest := Removed(entries, removable, keys[..|keys| - 1]);
      if last in removable then rest - {last} else rest
  }

  lemma {:induction false} RemovedAt<V>(entries: map<string, V>, removable: set<string>, keys: seq<string>, key: string)
    ensures At(Removed(entries, removable, keys), key)
         == if key in keys && key in removable then None else At(entries, key)
  {
    if keys == [] {
    } else {
      RemovedAt(entries, removable, keys[..|keys| - 1], key);
      assert keys == keys[..|keys| - 1] + [keys[|keys| - 1]];
    }
  }

  /** One more key of the listing. */
  lemma RemovalStep<V>(entries: map<string, V>, removable: set<string>, keys: seq<string>, i: nat)
    requires i < |keys| && NoDuplicates(keys)
    ensures At(Removed(entries, removable, keys[..i]), keys[i]) == At(entries, keys[i])
    ensures Removed(entries, removable, keys[..i + 1])
         == if keys[i] in removable then Removed(entries, removable, keys[..i]) - {keys[i]}
            else Removed(entries, removable, keys[..i])
    ensures CountIn(keys[..i + 1], removable)
         == CountIn(keys[..i], removable) + (if keys[i] in removable then 1 else 0)
    ensures keys[..i + 1] == keys[..i] + [keys[i]]
  {
    NextKey(keys, i);
    RemovedAt(entries, removable, keys[..i], keys[i]);
  }

  lemma RemovalStart<V>(entries: map<string, V>, removable: set<string>)
    ensures Removed(entries, removable, []) == entries && CountIn([], removable) == 0
  {
  }

  /** Everything is in the range ">". */
  lemma FullRange(key: string)
    ensures Matches(">", key)
  {
    SplitAtom(">", '.');
  }

  class Bucket<V> {
    var entries: map<string, V>
    var order: seq<string>

    ghost predicate Valid()
      reads this
    {
      NoDuplicates(order) && forall k :: k in order <==> k in entries
    }

    constructor ()
      ensures Valid() && entries == map[] && order == []
    {
      entries := map[];
      order := [];
    }

    /** A put moves the key to the end of the stream. */
    method Put(key: string, value: V)
      requires Valid()
      modifies this
      ensures Valid()
      ensures entries == old(entries)[key := value]
      ensures order == Without(old(order), key) + [key]
    {
      WithoutNoDuplicates(order, key);
      AppendNoDuplicates(Without(order, key), key);
      entries := entries[key := value];
      order := Without(order, key) + [key];
    }

    method Delete(key: string)
      requires Valid()
      modifies this
      ensures Valid()
      ensures entries == old(entries) - {key}
      ensures order == Without(old(order), key)
    {
      WithoutNoDuplicates(order, key);
      entries := entries - {key};
      order := Without(order, key);
    }

    method Keys(filter: string) returns (keys: seq<string>)
      requires Valid()
      ensures keys == Select(order, filter)
      ensures NoDuplicates(keys)
      ensures forall k :: k in keys <==> k in entries && Matches(filter, k)
    {
      SelectNoDuplicates(order, filter);
      keys := Select(order, filter);
    }
  }
}
