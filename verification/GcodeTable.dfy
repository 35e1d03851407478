/** The chained hash tables of the scanner: start states and keywords. */
module GcodeTable {

  /** `StartStates` and `KeywordMap`: 128 chains, new entries in front. */
  class Table<K(==)> {
    const tab: array<seq<(K, int)>>
    const hash: K -> nat
    ghost var entries: map<K, int>

    ghost predicate Valid()
      reads this, tab
    {
      && tab.Length == 128
      && (forall k, i :: 0 <= k < 128 && 0 <= i < |tab[k]| ==> hash(tab[k][i].0) % 128 == k && tab[k][i].0 in entries)
      && (forall key :: key in entries ==> Find(tab[hash(key) % 128], key) == Some(entries[key]))
    }

    constructor (hash: K -> nat)
      ensures Valid() && entries == map[] && fresh(tab) && this.hash == hash
    {
      tab := new seq<(K, int)>[128](i => []);
      this.hash := hash;
      entries := map[];
    }

    /** `set` */
    method Set(key: K, val: int)
      requires Valid()
      modifies this`entries, tab
      ensures Valid() && entries == old(entries)[key := val]
    {
      var k := hash(key) % 128;
      ghost var chain := tab[k];
      tab[k] := [(key, val)] + tab[k];
      entries := entries[key := val];
      forall other | other in entries ensures Find(tab[hash(other) % 128], other) == Some(entries[other]) {
        if hash(other) % 128 == k {
          assert tab[k][1..] == chain;
        }
      }
    }

    /** `state` and `get`: the last value set for the key */
    method Get(key: K, default: int) returns (val: int)
      requires Valid()
      ensures val == if key in entries then entries[key] else default
    {
      var e, i := tab[hash(key) % 128], 0;
      while i < |e| && e[i].0 != key
        invariant 0 <= i <= |e| && Find(e, key) == Find(e[i..], key)
      {
        assert e[i..][1..] == e[i + 1..];
        i := i + 1;
      }
      val := if i == |e| then default else e[i].1;
      if i < |e| {
        assert e[i].0 in entries;
      }
    }
  }

  datatype Option<T> = None | Some(value: T)

  function Find<K(==)>(chain: seq<(K, int)>, key: K): Option<int> {
    if chain == [] then None else if chain[0].0 == key then Some(chain[0].1) else Find(chain[1..], key)
  }
}
