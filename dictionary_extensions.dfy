/**
 * The counter update used throughout the pipeline
 * (Pipeline/Infrastructure/IDictionaryExtensions.cs), and the tally it
 * builds when applied to every element of a sequence in turn.
 */
module DictionaryExtensions {

  /** The counter map after one AddOrIncrement of key. */
  function Incremented<K>(m: map<K, int>, key: K): (r: map<K, int>)
    ensures r.Keys == m.Keys + {key}
    ensures key in m ==> r[key] == m[key] + 1
    ensures key !in m ==> r[key] == 1
    ensures forall k :: k in m && k != key ==> r[k] == m[k]
  {
    if key in m then m[key := m[key] + 1] else m[key := 1]
  }

  /** The counter map after AddOrIncrement of each element of s, in order, from empty. */
  function Tally<K>(s: seq<K>): map<K, int> {
    if s == [] then map[] else Incremented(Tally(s[..|s| - 1]), s[|s| - 1])
  }

  /** The tally counts occurrences: its keys are the elements of s and each
      value is that element's multiplicity, so at least 1. */
  lemma {:induction false} TallyCounts<K>(s: seq<K>)
    ensures forall k :: k in Tally(s) <==> k in s
    ensures forall k :: k in Tally(s) ==> Tally(s)[k] == multiset(s)[k] >= 1
  {
    if s != [] {
      var s', x := s[..|s| - 1], s[|s| - 1];
      TallyCounts(s');
      assert s == s' + [x];
      assert multiset(s) == multiset(s') + multiset{x};
    }
  }

  lemma TallyAppend<K>(s: seq<K>, x: K)
    ensures Tally(s + [x]) == Incremented(Tally(s), x)
  {
    assert (s + [x])[..|s|] == s;
  }

  /** A dictionary of counters, updated in place. */
  class CountTable<K(==)> {
    var counts: map<K, int>

    constructor()
      ensures counts == map[]
    {
      counts := map[];
    }

    /** AddOrIncrement: a missing key starts at 1, a present one goes up by
        one, and every other entry is left alone. */
    method AddOrIncrement(key: K)
      modifies this
      ensures counts == Incremented(old(counts), key)
      ensures counts.Keys == old(counts).Keys + {key}
      ensures key in old(counts) ==> counts[key] == old(counts)[key] + 1
      ensures key !in old(counts) ==> counts[key] == 1
      ensures forall k :: k in old(counts) && k != key ==> counts[k] == old(counts)[k]
    {
      if key in counts {
        counts := counts[key := counts[key] + 1];
      } else {
        counts := counts[key := 1];
      }
    }
  }
}
