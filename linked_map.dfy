/** Insertion-ordered maps: the behaviour of java.util.LinkedHashMap that the upload
    handler relies on for its response. */
module LinkedMaps {

  /** No element occurs twice. */
  ghost predicate Distinct<K>(s: seq<K>) {
    forall i, j :: 0 <= i < j < |s| ==> s[i] != s[j]
  }

  /** The abstract value of a LinkedHashMap: its keys in first-insertion order and
      the value each key maps to now. */
  datatype OrderedMap<K(==, !new), V> = OrderedMap(keys: seq<K>, values: map<K, V>)
  {
    ghost predicate Valid() {
      && Distinct(keys)
      && (forall k :: k in values <==> k in keys)
    }

    /** Map.put: the key maps to the new value; a new key goes to the end, an
        existing key keeps its position. */
    function Put(k: K, v: V): (r: OrderedMap<K, V>)
      requires Valid()
      ensures r.Valid()
      ensures k in r.values && r.values[k] == v
      ensures forall q :: q != k ==> (q in r.values <==> q in values)
      ensures forall q :: q != k && q in values ==> r.values[q] == values[q]
      ensures |keys| <= |r.keys| && r.keys[..|keys|] == keys
      ensures |r.keys| == if k in values then |keys| else |keys| + 1
    {
      OrderedMap(if k in values then keys else keys + [k], values[k := v])
    }
  }

  /** Reference definition of insertion order: the elements of s, each at the place
      where it first occurs. */
  function FirstOccurrences<K(==, !new)>(s: seq<K>): (r: seq<K>)
    ensures Distinct(r)
    ensures forall x :: x in r <==> x in s
    ensures |r| <= |s|
    decreases |s|
  {
    if s == [] then []
    else
      var init := s[..|s| - 1];
      var rest := FirstOccurrences(init);
      if s[|s| - 1] in init then rest else rest + [s[|s| - 1]]
  }

  /** A sequence without repetitions is its own first-occurrence order. */
  lemma {:induction false} FirstOccurrencesOfDistinct<K(!new)>(s: seq<K>)
    requires Distinct(s)
    ensures FirstOccurrences(s) == s
    decreases |s|
  {
    if s != [] {
      var init := s[..|s| - 1];
      FirstOccurrencesOfDistinct(init);
      assert s == init + [s[|s| - 1]];
    }
  }

  /** The first-occurrence order of a prefix is a prefix of the whole's. */
  lemma {:induction false} FirstOccurrencesOfPrefix<K(!new)>(s: seq<K>, n: nat)
    requires n <= |s|
    ensures var p := FirstOccurrences(s[..n]);
            var r := FirstOccurrences(s);
            |p| <= |r| && r[..|p|] == p
    decreases |s| - n
  {
    if n < |s| {
      var init := s[..|s| - 1];
      assert init[..n] == s[..n];
      FirstOccurrencesOfPrefix(init, n);
    } else {
      assert s[..n] == s;
    }
  }

  /** Insertion order is submission order: whatever first occurs earlier in s
      comes earlier in FirstOccurrences(s). */
  lemma FirstOccurrencesKeepsOrder<K(!new)>(s: seq<K>, i: nat, j: nat)
    requires i < j < |s|
    requires s[j] !in s[..j]
    ensures var r := FirstOccurrences(s);
            exists a, b :: 0 <= a < b < |r| && r[a] == s[i] && r[b] == s[j]
  {
    var p := FirstOccurrences(s[..j]);
    var q := FirstOccurrences(s[..j + 1]);
    assert s[..j + 1][..j] == s[..j];
    assert q == p + [s[j]];
    assert s[i] in s[..j];
    var a :| 0 <= a < |p| && p[a] == s[i];
    FirstOccurrencesOfPrefix(s, j + 1);
    var r := FirstOccurrences(s);
    assert r[..|q|] == q;
    assert r[a] == s[i] && r[|p|] == s[j];
  }

  /** Putting keys one by one lays them out in first-occurrence order. */
  lemma PutKeepsFirstOccurrences<K(!new), V>(m: OrderedMap<K, V>, s: seq<K>, k: K, v: V)
    requires m.Valid() && m.keys == FirstOccurrences(s)
    ensures m.Put(k, v).keys == FirstOccurrences(s + [k])
  {
    var t := s + [k];
    assert t[..|t| - 1] == s;
  }

  /** A LinkedHashMap that is updated in place. */
  class LinkedMap<K(==, !new), V> {
    var keys: seq<K>
    var values: map<K, V>

    function Model(): OrderedMap<K, V>
      reads this
    {
      OrderedMap(keys, values)
    }

    ghost predicate Valid()
      reads this
    {
      Model().Valid()
    }

    /** new LinkedHashMap<>(): no entries. */
    constructor ()
      ensures Valid() && Model() == OrderedMap([], map[])
    {
      keys := [];
      values := map[];
    }

    /** Map.put, in place. */
    method Put(k: K, v: V)
      requires Valid()
      modifies this
      ensures Valid() && Model() == old(Model()).Put(k, v)
    {
      if k !in values {
        keys := keys + [k];
      }
      values := values[k := v];
    }
  }
}
