/** Insertion-ordered, string-keyed maps: the `LinkedHashMap<String, Object>` every part of the
    library builds its context in. A map is the sequence of its entries in insertion order. */
module OrderedMaps {
  import opened Wrappers

  /** The values a context map holds. */
  datatype Value =
    | Null                          // a Java `null`
    | Text(s: string)               // a String
    | Number(n: int)                // an Integer
    | Nested(entries: Entries)      // a nested Map<String, Object>
    | Items(items: seq<Value>)      // a List
    | Opaque(id: nat)               // any other object, by identity

  type Entries = seq<(string, Value)>

  function Keys(m: Entries): (ks: seq<string>)
    ensures |ks| == |m|
    ensures forall i :: 0 <= i < |m| ==> ks[i] == m[i].0
  {
    if m == [] then [] else [m[0].0] + Keys(m[1..])
  }

  /** No key occurs twice: every map built by `PutEntry` alone keeps this. */
  predicate DistinctKeys(m: Entries) {
    forall i, j :: 0 <= i < j < |m| ==> m[i].0 != m[j].0
  }

  /** `map.get(k)`: the value of the first entry with key `k`. */
  function Get(m: Entries, k: string): (r: Option<Value>)
    ensures r.Some? <==> k in Keys(m)
  {
    if m == [] then None
    else if m[0].0 == k then Some(m[0].1)
    else Get(m[1..], k)
  }

  /** In a map without duplicate keys, the key of each entry reads that entry's value. */
  lemma {:induction false} GetDistinct(m: Entries, i: nat)
    requires DistinctKeys(m) && i < |m|
    ensures Get(m, m[i].0) == Some(m[i].1)
  {
    if i > 0 {
      assert m[1..][i - 1] == m[i];
      assert DistinctKeys(m[1..]) by {
        forall a, b | 0 <= a < b < |m[1..]| ensures m[1..][a].0 != m[1..][b].0 {
          assert m[1..][a] == m[a + 1] && m[1..][b] == m[b + 1];
        }
      }
      GetDistinct(m[1..], i - 1);
    }
  }

  /** A key no entry carries is not a key of the map. */
  lemma NotAKey(m: Entries, k: string)
    requires forall i :: 0 <= i < |m| ==> m[i].0 != k
    ensures k !in Keys(m)
  {
    var ks := Keys(m);
    forall i | 0 <= i < |ks| ensures ks[i] != k {
      assert ks[i] == m[i].0;
    }
  }

  /** In a map without duplicate keys, an entry's key occurs nowhere before it. */
  lemma DistinctLast(m: Entries, e: (string, Value), rest: Entries)
    requires DistinctKeys(m + [e] + rest)
    ensures e.0 !in Keys(m)
  {
    var all := m + [e] + rest;
    assert all[|m|] == e;
    forall i | 0 <= i < |m| ensures m[i].0 != e.0 {
      assert all[i] == m[i];
    }
    NotAKey(m, e.0);
  }

  /** Position of the first entry with key `k`. */
  function IndexOf(m: Entries, k: string): (i: nat)
    requires k in Keys(m)
    ensures i < |m| && m[i].0 == k
    ensures forall j :: 0 <= j < i ==> m[j].0 != k
  {
    if m[0].0 == k then 0 else 1 + IndexOf(m[1..], k)
  }

  /** `map.put(k, v)`: replaces the value of an existing key where it stands, or appends a new entry. */
  function PutEntry(m: Entries, k: string, v: Value): (r: Entries)
    ensures r != [] && (m != [] ==> r[0].0 == m[0].0)
  {
    if m == [] then [(k, v)]
    else if m[0].0 == k then [(k, v)] + m[1..]
    else [m[0]] + PutEntry(m[1..], k, v)
  }

  /** `map.putAll(src)`: puts the entries of `src` one after the other, in its order. */
  function PutAll(m: Entries, src: Entries): (r: Entries)
    ensures m != [] ==> r != [] && r[0].0 == m[0].0
    decreases |src|
  {
    if src == [] then m else PutAll(PutEntry(m, src[0].0, src[0].1), src[1..])
  }

  /** A new key goes to the end; a key already present keeps its place. */
  lemma {:induction false} PutKeys(m: Entries, k: string, v: Value)
    ensures Keys(PutEntry(m, k, v)) == if k in Keys(m) then Keys(m) else Keys(m) + [k]
  {
    if m != [] && m[0].0 != k {
      PutKeys(m[1..], k, v);
      assert Keys(m) == [m[0].0] + Keys(m[1..]);
    }
  }

  /** After `put(k, v)`, `get(k)` is `v` and every other key reads as before. */
  lemma {:induction false} PutGet(m: Entries, k: string, v: Value, j: string)
    ensures Get(PutEntry(m, k, v), j) == if j == k then Some(v) else Get(m, j)
  {
    if m != [] && m[0].0 != k {
      PutGet(m[1..], k, v, j);
    }
  }

  /** `put` on an existing key overwrites that entry in place and moves nothing. */
  lemma {:induction false} PutInPlace(m: Entries, k: string, v: Value)
    requires k in Keys(m)
    ensures PutEntry(m, k, v) == m[IndexOf(m, k) := (k, v)]
  {
    if m[0].0 == k {
      assert IndexOf(m, k) == 0;
      assert [(k, v)] + m[1..] == m[0 := (k, v)];
    } else {
      assert Keys(m) == [m[0].0] + Keys(m[1..]);
      var i := IndexOf(m[1..], k);
      PutInPlace(m[1..], k, v);
      assert IndexOf(m, k) == i + 1;
      UpdateTail(m, i, (k, v));
    }
  }

  /** Updating position `i` of the tail is updating position `i + 1` of the whole. */
  lemma UpdateTail(m: Entries, i: nat, e: (string, Value))
    requires i + 1 < |m|
    ensures [m[0]] + m[1..][i := e] == m[i + 1 := e]
  {
  }

  /** `put` on a missing key appends. */
  lemma {:induction false} PutAppends(m: Entries, k: string, v: Value)
    requires k !in Keys(m)
    ensures PutEntry(m, k, v) == m + [(k, v)]
  {
    if m != [] {
      PutAppends(m[1..], k, v);
    }
  }

  /** `put` keeps a map free of duplicate keys. */
  lemma PutDistinct(m: Entries, k: string, v: Value)
    requires DistinctKeys(m)
    ensures DistinctKeys(PutEntry(m, k, v))
  {
    if k in Keys(m) {
      PutInPlace(m, k, v);
    } else {
      PutAppends(m, k, v);
    }
  }

  /** Putting entries whose keys are all new, and distinct, appends them in their order. */
  lemma {:induction false} PutAllAppends(m: Entries, src: Entries)
    requires DistinctKeys(src)
    requires forall i :: 0 <= i < |src| ==> src[i].0 !in Keys(m)
    ensures PutAll(m, src) == m + src
    decreases |src|
  {
    if src != [] {
      PutAppends(m, src[0].0, src[0].1);
      PutKeys(m, src[0].0, src[0].1);
      var m' := m + [src[0]];
      var rest := src[1..];
      assert forall i :: 0 <= i < |rest| ==> rest[i] == src[i + 1];
      assert DistinctKeys(rest);
      PutAllAppends(m', rest);
      MoveHead(m, src);
    }
  }

  /** Moving the first entry of `src` onto the end of `m` keeps the concatenation. */
  lemma MoveHead(m: Entries, src: Entries)
    requires src != []
    ensures (m + [src[0]]) + src[1..] == m + src
  {
  }

  /** After `putAll(src)` with `src` free of duplicates, a key of `src` reads its value there;
      any other key reads as before. */
  lemma {:induction false} PutAllGet(m: Entries, src: Entries, j: string)
    requires DistinctKeys(src)
    ensures Get(PutAll(m, src), j) == if j in Keys(src) then Get(src, j) else Get(m, j)
    decreases |src|
  {
    if src != [] {
      var m' := PutEntry(m, src[0].0, src[0].1);
      assert DistinctKeys(src[1..]) by {
        forall a, b | 0 <= a < b < |src[1..]| ensures src[1..][a].0 != src[1..][b].0 {
          assert src[1..][a] == src[a + 1] && src[1..][b] == src[b + 1];
        }
      }
      PutAllGet(m', src[1..], j);
      PutGet(m, src[0].0, src[0].1, j);
      assert Keys(src) == [src[0].0] + Keys(src[1..]);
    }
  }

  /** The mutable `LinkedHashMap` object itself, for the places where the source shares one. */
  class LinkedMap {
    var entries: Entries

    ghost predicate Valid()
      reads this
    {
      DistinctKeys(entries)
    }

    constructor ()
      ensures Valid() && entries == []
    {
      entries := [];
    }

    method Put(k: string, v: Value)
      requires Valid()
      modifies this
      ensures Valid()
      ensures entries == PutEntry(old(entries), k, v)
    {
      PutDistinct(entries, k, v);
      entries := PutEntry(entries, k, v);
    }
  }
}
