/**
 Ranging over a Go map: the order is unspecified, so a loop over a map is
 modelled over a sequence that lists each key exactly once, and properties
 are stated for every such sequence.
 */
module GoMaps {

  /** `keys` lists every key of `m` exactly once: one way Go may range over the map. */
  predicate Enumerates<V>(keys: seq<string>, m: map<string, V>)
  {
    && (forall i :: 0 <= i < |keys| ==> keys[i] in m)
    && multiset(keys) == multiset(m.Keys)
  }

  predicate Distinct(keys: seq<string>)
  {
    forall i, j :: 0 <= i < j < |keys| ==> keys[i] != keys[j]
  }

  /** The keys a sequence lists. */
  function Elems(keys: seq<string>): set<string>
  {
    set i | 0 <= i < |keys| :: keys[i]
  }

  /** The keys of a non-empty list are its first key and the keys of the rest. */
  lemma ElemsCons(keys: seq<string>)
    requires |keys| > 0
    ensures Elems(keys) == Elems(keys[1..]) + {keys[0]}
  {
    forall x | x in Elems(keys)
      ensures x in Elems(keys[1..]) + {keys[0]}
    {
      var i :| 0 <= i < |keys| && keys[i] == x;
      if i > 0 {
        assert keys[1..][i - 1] == x;
      }
    }
    forall x | x in Elems(keys[1..])
      ensures x in Elems(keys)
    {
      var i :| 0 <= i < |keys[1..]| && keys[1..][i] == x;
      assert keys[i + 1] == x;
    }
  }

  /** A key that occurs at two positions is counted twice. */
  lemma RepeatCounted(keys: seq<string>, i: int, j: int)
    requires 0 <= i < j < |keys|
    ensures keys[i] == keys[j] ==> multiset(keys)[keys[i]] >= 2
  {
    if keys[i] == keys[j] {
      assert keys == keys[..i] + [keys[i]] + keys[i + 1..j] + [keys[j]] + keys[j + 1..];
    }
  }

  /** An enumeration has no repeats and lists exactly the map's keys. */
  lemma EnumerationFacts<V>(keys: seq<string>, m: map<string, V>)
    requires Enumerates(keys, m)
    ensures Distinct(keys)
    ensures Elems(keys) == m.Keys
    ensures |keys| == |m.Keys|
  {
    forall i, j | 0 <= i < j < |keys|
      ensures keys[i] != keys[j]
    {
      RepeatCounted(keys, i, j);
      assert multiset(m.Keys)[keys[i]] <= 1;
    }
    forall k | k in m.Keys
      ensures k in Elems(keys)
    {
      assert k in multiset(keys);
      var i :| 0 <= i < |keys| && keys[i] == k;
    }
    assert |multiset(keys)| == |multiset(m.Keys)|;
  }
}
