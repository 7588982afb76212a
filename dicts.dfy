/** Python dictionaries keep their keys in insertion order, and the core
    iterates them (dict.keys(), dict.items()) in that order. A Dict pairs a
    map with the sequence of its keys in insertion order. */
module Dicts {

  datatype Dict<K(==,!new), V> = Dict(keys: seq<K>, entries: map<K, V>)
  {
    /** The keys are distinct and are exactly the keys of the map. */
    predicate Valid()
    {
      && Distinct(keys)
      && (forall k :: k in entries ==> k in keys)
      && (forall i :: 0 <= i < |keys| ==> keys[i] in entries)
    }

    /** Python d[k] = v: a new key goes to the end, an existing key keeps its place. */
    function Put(k: K, v: V): (d: Dict<K, V>)
      requires Valid()
      ensures d.Valid()
      ensures d.entries == entries[k := v]
      ensures d.keys == if k in entries then keys else keys + [k]
    {
      if k in entries then Dict(keys, entries[k := v])
      else
        DistinctSpec(keys);
        DistinctSpec(keys + [k]);
        Dict(keys + [k], entries[k := v])
    }

    /** Python del d[k] (or nothing when k is absent). */
    function Delete(k: K): (d: Dict<K, V>)
      requires Valid()
      ensures d.Valid()
      ensures d.entries == entries - {k}
      ensures |d.keys| == if k in entries then |keys| - 1 else |keys|
    {
      var ks := Without(keys, k);
      DistinctSpec(keys);
      DistinctSpec(ks);
      assert forall i :: 0 <= i < |ks| ==> ks[i] in ks;
      Dict(ks, entries - {k})
    }
  }

  /** No element occurs twice in s. */
  predicate Distinct<K(==)>(s: seq<K>)
  {
    DistinctBefore(s, |s|)
  }

  /** No element occurs twice among the first n of s. Stated by recursion on
      the position rather than by a quantifier, so that the solver unfolds it
      only as far as a proof asks; DistinctSpec gives the pairwise reading. */
  predicate DistinctBefore<K(==)>(s: seq<K>, n: nat)
    requires n <= |s|
  {
    n == 0 || (AbsentBefore(s, n - 1, s[n - 1]) && DistinctBefore(s, n - 1))
  }

  /** x is none of the first n elements of s. */
  predicate AbsentBefore<K(==)>(s: seq<K>, n: nat, x: K)
    requires n <= |s|
  {
    n == 0 || (s[n - 1] != x && AbsentBefore(s, n - 1, x))
  }

  lemma {:induction false} AbsentSpec<K>(s: seq<K>, n: nat, x: K)
    requires n <= |s|
    ensures AbsentBefore(s, n, x) <==> forall i :: 0 <= i < n ==> s[i] != x
  {
    if n > 0 {
      AbsentSpec(s, n - 1, x);
    }
  }

  lemma {:induction false} DistinctBeforeSpec<K>(s: seq<K>, n: nat)
    requires n <= |s|
    ensures DistinctBefore(s, n) <==> forall i, j :: 0 <= i < j < n ==> s[i] != s[j]
  {
    if n > 0 {
      DistinctBeforeSpec(s, n - 1);
      AbsentSpec(s, n - 1, s[n - 1]);
    }
  }

  /** Distinct means that no two positions hold the same element. */
  lemma DistinctSpec<K>(s: seq<K>)
    ensures Distinct(s) <==> forall i, j :: 0 <= i < j < |s| ==> s[i] != s[j]
  {
    DistinctBeforeSpec(s, |s|);
  }

  function Empty<K(==,!new), V>(): (d: Dict<K, V>)
    ensures d.Valid() && d.keys == [] && d.entries == map[]
  {
    Dict([], map[])
  }

  /** s with every occurrence of x removed. */
  function Without<K(==,!new)>(s: seq<K>, x: K): (r: seq<K>)
    ensures forall y :: y in r <==> y in s && y != x
    ensures (forall i, j :: 0 <= i < j < |s| ==> s[i] != s[j]) ==>
              (forall i, j :: 0 <= i < j < |r| ==> r[i] != r[j]) && |r| == if x in s then |s| - 1 else |s|
  {
    if s == [] then []
    else
      var rest := Without(s[1..], x);
      assert forall y :: y in s[1..] ==> y in s;
      if s[0] == x then rest
      else
        assert (forall i, j :: 0 <= i < j < |s| ==> s[i] != s[j]) ==> s[0] !in s[1..];
        [s[0]] + rest
  }

  /** The union {**a, **b}: a's keys in order, then b's new keys in b's order;
      on a shared key b's value wins. */
  function Merge<K(==,!new), V>(a: Dict<K, V>, b: Dict<K, V>): (r: Dict<K, V>)
    requires a.Valid() && b.Valid()
    ensures r.Valid()
    ensures r.entries == a.entries + b.entries
  {
    var r := PutAll(a, b.keys, b.entries);
    assert forall k :: k in b.keys <==> k in b.entries;
    r
  }

  /** Put every key of ks, in order, with its value in m. */
  function PutAll<K(==,!new), V>(a: Dict<K, V>, ks: seq<K>, m: map<K, V>): (r: Dict<K, V>)
    requires a.Valid()
    requires forall k :: k in ks ==> k in m
    ensures r.Valid()
    ensures forall k :: k in r.entries <==> k in a.entries || k in ks
    ensures forall k :: k in r.entries ==> r.entries[k] == if k in ks then m[k] else a.entries[k]
    decreases |ks|
  {
    if ks == [] then a
    else
      var last := ks[|ks| - 1];
      var front := ks[..|ks| - 1];
      assert forall k :: k in ks <==> k in front || k == last;
      PutAll(a, front, m).Put(last, m[last])
  }

  /** {**a, **b} keeps a's keys first, in a's order. */
  lemma MergeKeepsOrder<K(!new), V>(a: Dict<K, V>, b: Dict<K, V>)
    requires a.Valid() && b.Valid()
    ensures |Merge(a, b).keys| >= |a.keys| && Merge(a, b).keys[..|a.keys|] == a.keys
  {
    PutAllKeepsPrefix(a, b.keys, b.entries);
  }

  /** Putting keys never moves the keys that were already there. */
  lemma {:induction false} PutAllKeepsPrefix<K(!new), V>(a: Dict<K, V>, ks: seq<K>, m: map<K, V>)
    requires a.Valid()
    requires forall k :: k in ks ==> k in m
    ensures |PutAll(a, ks, m).keys| >= |a.keys|
    ensures PutAll(a, ks, m).keys[..|a.keys|] == a.keys
    decreases |ks|
  {
    if ks != [] {
      var front := ks[..|ks| - 1];
      assert forall k :: k in front ==> k in ks;
      PutAllKeepsPrefix(a, front, m);
      var d := PutAll(a, front, m);
      var last := ks[|ks| - 1];
      assert PutAll(a, ks, m).keys == d.Put(last, m[last]).keys;
      KeysPrefixSnoc(d.keys, a.keys, last);
    }
  }

  /** Appending a key keeps a prefix of the key list. */
  lemma KeysPrefixSnoc<K>(keys: seq<K>, prefix: seq<K>, k: K)
    requires |keys| >= |prefix| && keys[..|prefix|] == prefix
    ensures (keys + [k])[..|prefix|] == prefix
  {
    assert (keys + [k])[..|prefix|] == keys[..|prefix|];
  }

  /** The keys after the first n of a distinct sequence are distinct. */
  lemma SuffixDistinct<K>(ks: seq<K>, n: nat)
    requires Distinct(ks) && n <= |ks|
    ensures Distinct(ks[n..])
  {
    DistinctSpec(ks);
    DistinctSpec(ks[n..]);
    forall i, j | 0 <= i < j < |ks[n..]|
      ensures ks[n..][i] != ks[n..][j]
    {
      assert ks[n..][i] == ks[n + i] && ks[n..][j] == ks[n + j];
    }
  }

  /** In a distinct sequence, an element comes after the first n exactly
      when it is there and not among the first n. */
  lemma SuffixMember<K>(ks: seq<K>, n: nat, k: K)
    requires Distinct(ks) && n <= |ks|
    ensures k in ks[n..] <==> k in ks && k !in ks[..n]
  {
    DistinctSpec(ks);
    if k in ks {
      var i :| 0 <= i < |ks| && ks[i] == k;
      if i < n {
        assert ks[..n][i] == k;
        forall j | 0 <= j < |ks[n..]|
          ensures ks[n..][j] != k
        {
          assert ks[n..][j] == ks[n + j];
        }
      } else {
        assert ks[n..][i - n] == k;
      }
    }
  }
}
