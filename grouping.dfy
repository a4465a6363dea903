/**
 * Grouping a sequence into blocks keyed by an optional key, the shape of
 * the Dictionary<K, List<T>> that the groupers and the matcher fill: a
 * block per distinct key in order of first appearance, each block holding
 * its elements in input order, and the elements without a key set aside.
 */
module Grouping {
  import opened Outcomes
  import opened Seqs

  /** The distinct keys of s, in order of first appearance. */
  function Keys<T, K(==)>(s: seq<T>, key: T -> Option<K>): (ks: seq<K>)
    ensures |ks| <= |s|
  {
    if s == [] then []
    else
      var ks := Keys(s[..|s| - 1], key);
      match key(s[|s| - 1])
      case None => ks
      case Some(k) => if k in ks then ks else ks + [k]
  }

  function HasKey<T, K(==)>(key: T -> Option<K>, k: K): T -> bool {
    x => key(x) == Some(k)
  }

  function HasNoKey<T, K(==)>(key: T -> Option<K>): T -> bool {
    x => key(x).None?
  }

  /** The block of key k: the elements whose key is k, in input order. */
  function Group<T, K(==)>(s: seq<T>, key: T -> Option<K>, k: K): seq<T> {
    Filter(s, HasKey(key, k))
  }

  /** The elements with no key, in input order. */
  function Unkeyed<T, K(==)>(s: seq<T>, key: T -> Option<K>): seq<T> {
    Filter(s, HasNoKey(key))
  }

  predicate Distinct<K(==)>(ks: seq<K>) {
    forall i, j :: 0 <= i < j < |ks| ==> ks[i] != ks[j]
  }

  lemma {:induction false} KeysDistinct<T, K>(s: seq<T>, key: T -> Option<K>)
    ensures Distinct(Keys(s, key))
  {
    if s != [] {
      KeysDistinct(s[..|s| - 1], key);
    }
  }

  /** A key is listed exactly when some element carries it. */
  lemma {:induction false} KeysComplete<T, K>(s: seq<T>, key: T -> Option<K>, k: K)
    ensures k in Keys(s, key) <==> exists i :: 0 <= i < |s| && key(s[i]) == Some(k)
  {
    if s != [] {
      var s' := s[..|s| - 1];
      KeysComplete(s', key, k);
      if k in Keys(s, key) && key(s[|s| - 1]) != Some(k) {
        var i :| 0 <= i < |s'| && key(s'[i]) == Some(k);
        assert key(s[i]) == Some(k);
      }
      if exists i :: 0 <= i < |s| && key(s[i]) == Some(k) {
        var i :| 0 <= i < |s| && key(s[i]) == Some(k);
        if i < |s'| {
          assert key(s'[i]) == Some(k);
        }
      }
    }
  }

  /** Each block is exactly the set of elements carrying its key. */
  lemma GroupMembership<T, K>(s: seq<T>, key: T -> Option<K>, k: K, x: T)
    ensures x in Group(s, key, k) <==> x in s && key(x) == Some(k)
  {
    FilterMembership(s, HasKey(key, k), x);
  }

  lemma UnkeyedMembership<T, K>(s: seq<T>, key: T -> Option<K>, x: T)
    ensures x in Unkeyed(s, key) <==> x in s && key(x).None?
  {
    FilterMembership(s, HasNoKey(key), x);
  }

  /** When every element has a key, none is set aside. */
  lemma AllKeyed<T, K>(s: seq<T>, key: T -> Option<K>)
    requires forall i :: 0 <= i < |s| ==> key(s[i]).Some?
    ensures Unkeyed(s, key) == []
  {
    forall i | 0 <= i < |s| ensures !HasNoKey(key)(s[i]) {
      assert key(s[i]).Some?;
    }
    FilterNone(s, HasNoKey(key));
  }

  /** No listed key has an empty block. */
  lemma GroupNonEmpty<T, K>(s: seq<T>, key: T -> Option<K>, k: K)
    requires k in Keys(s, key)
    ensures Group(s, key, k) != []
  {
    KeysComplete(s, key, k);
    var i :| 0 <= i < |s| && key(s[i]) == Some(k);
    GroupMembership(s, key, k, s[i]);
  }

  /** Total size of the blocks of the keys ks. */
  function BlockSizes<T, K(==)>(s: seq<T>, key: T -> Option<K>, ks: seq<K>): nat {
    if ks == [] then 0
    else BlockSizes(s, key, ks[..|ks| - 1]) + |Group(s, key, ks[|ks| - 1])|
  }

  lemma {:induction false} BlockSizesSnoc<T, K>(s: seq<T>, x: T, key: T -> Option<K>, ks: seq<K>)
    requires Distinct(ks)
    ensures BlockSizes(s + [x], key, ks)
         == BlockSizes(s, key, ks) + (if key(x).Some? && key(x).value in ks then 1 else 0)
  {
    if ks != [] {
      var ks' := ks[..|ks| - 1];
      var k := ks[|ks| - 1];
      BlockSizesSnoc(s, x, key, ks');
      FilterSnoc(s, x, HasKey(key, k));
      if key(x).Some? && key(x).value in ks {
        if key(x).value != k {
          var j :| 0 <= j < |ks| && ks[j] == key(x).value;
          assert ks'[j] == key(x).value;
        } else {
          assert forall j :: 0 <= j < |ks'| ==> ks'[j] != k by {
            forall j | 0 <= j < |ks'| ensures ks'[j] != k {
              assert ks'[j] == ks[j];
            }
          }
        }
      }
    }
  }

  /**
   * Nothing is lost or duplicated: the blocks and the unkeyed elements
   * together account for every element of s exactly once.
   */
  lemma {:induction false} Partition<T, K>(s: seq<T>, key: T -> Option<K>)
    ensures BlockSizes(s, key, Keys(s, key)) + |Unkeyed(s, key)| == |s|
  {
    if s != [] {
      var s' := s[..|s| - 1];
      var x := s[|s| - 1];
      assert s == s' + [x];
      Partition(s', key);
      KeysDistinct(s', key);
      BlockSizesSnoc(s', x, key, Keys(s', key));
      FilterSnoc(s', x, HasNoKey(key));
      match key(x)
      case None =>
      case Some(k) =>
        if k !in Keys(s', key) {
          var ks' := Keys(s', key);
          assert Keys(s, key) == ks' + [k];
          assert (ks' + [k])[..|ks' + [k]| - 1] == ks';
          KeysComplete(s', key, k);
          FilterSnoc(s', x, HasKey(key, k));
          FilterNone(s', HasKey(key, k));
        }
    }
  }

  /** A key with the elements filed under it. */
  datatype Block<K, T> = Block(key: K, members: seq<T>)

  /** The blocks of the keys ks. */
  function BlocksOf<T, K(==)>(s: seq<T>, key: T -> Option<K>, ks: seq<K>): (bs: seq<Block<K, T>>)
    ensures |bs| == |ks|
  {
    if ks == [] then []
    else BlocksOf(s, key, ks[..|ks| - 1]) + [Block(ks[|ks| - 1], Group(s, key, ks[|ks| - 1]))]
  }

  /** The blocks of s, one per key in order of first appearance. */
  function Blocks<T, K(==)>(s: seq<T>, key: T -> Option<K>): seq<Block<K, T>> {
    BlocksOf(s, key, Keys(s, key))
  }

  /** The number of elements held by the blocks. */
  function Size<K, T>(bs: seq<Block<K, T>>): nat {
    if bs == [] then 0 else Size(bs[..|bs| - 1]) + |bs[|bs| - 1].members|
  }

  lemma {:induction false} BlocksOfAt<T, K>(s: seq<T>, key: T -> Option<K>, ks: seq<K>, i: nat)
    requires i < |ks|
    ensures BlocksOf(s, key, ks)[i] == Block(ks[i], Group(s, key, ks[i]))
  {
    if i < |ks| - 1 {
      BlocksOfAt(s, key, ks[..|ks| - 1], i);
    }
  }

  lemma {:induction false} SizeOfBlocks<T, K>(s: seq<T>, key: T -> Option<K>, ks: seq<K>)
    ensures Size(BlocksOf(s, key, ks)) == BlockSizes(s, key, ks)
  {
    if ks != [] {
      var bs := BlocksOf(s, key, ks);
      assert bs[..|bs| - 1] == BlocksOf(s, key, ks[..|ks| - 1]);
      SizeOfBlocks(s, key, ks[..|ks| - 1]);
    }
  }

  /** The block keys are distinct. */
  lemma BlockKeysDistinct<T, K>(s: seq<T>, key: T -> Option<K>)
    ensures var bs := Blocks(s, key); forall i, j :: 0 <= i < j < |bs| ==> bs[i].key != bs[j].key
  {
    var ks := Keys(s, key);
    KeysDistinct(s, key);
    forall i | 0 <= i < |ks| ensures Blocks(s, key)[i].key == ks[i] {
      BlocksOfAt(s, key, ks, i);
    }
  }

  /** Block i is the block of the i-th key. */
  lemma BlockKeysAre<T, K>(s: seq<T>, key: T -> Option<K>)
    ensures forall i :: 0 <= i < |Keys(s, key)| ==> Blocks(s, key)[i].key == Keys(s, key)[i]
  {
    forall i | 0 <= i < |Keys(s, key)| ensures Blocks(s, key)[i].key == Keys(s, key)[i] {
      BlocksOfAt(s, key, Keys(s, key), i);
    }
  }

  /** Block i holds, in input order, exactly the elements carrying its key,
      and at least one of them. */
  lemma BlockAt<T, K>(s: seq<T>, key: T -> Option<K>, i: nat)
    requires i < |Blocks(s, key)|
    ensures var b := Blocks(s, key)[i];
      && b.members == Group(s, key, b.key)
      && b.members != []
      && forall x :: x in b.members <==> x in s && key(x) == Some(b.key)
  {
    var ks := Keys(s, key);
    BlocksOfAt(s, key, ks, i);
    GroupNonEmpty(s, key, ks[i]);
    forall x ensures x in Group(s, key, ks[i]) <==> x in s && key(x) == Some(ks[i]) {
      GroupMembership(s, key, ks[i], x);
    }
  }

  /** The index of the block an element with a key is filed in. */
  lemma BlockIndexOf<T, K>(s: seq<T>, key: T -> Option<K>, x: T) returns (i: nat)
    requires x in s && key(x).Some?
    ensures i < |Blocks(s, key)| && Blocks(s, key)[i].key == key(x).value
  {
    var ks := Keys(s, key);
    var j :| 0 <= j < |s| && s[j] == x;
    KeysComplete(s, key, key(x).value);
    i :| 0 <= i < |ks| && ks[i] == key(x).value;
    BlocksOfAt(s, key, ks, i);
  }

  /** The blocks and the unkeyed elements together hold |s| elements. */
  lemma BlocksSize<T, K>(s: seq<T>, key: T -> Option<K>)
    ensures Size(Blocks(s, key)) + |Unkeyed(s, key)| == |s|
  {
    SizeOfBlocks(s, key, Keys(s, key));
    Partition(s, key);
  }

  /**
   * Every element lands in exactly one place: with the unkeyed elements
   * when it has no key, otherwise in the one block of its key. Block keys
   * are distinct, no block is empty, blocks and the unkeyed elements keep
   * input order, and together they hold every element.
   */
  lemma BlocksPartition<T, K>(s: seq<T>, key: T -> Option<K>)
    ensures var bs, rest := Blocks(s, key), Unkeyed(s, key);
      && (forall x :: x in rest <==> x in s && key(x).None?)
      && IsSubsequence(rest, s)
      && (forall i, j :: 0 <= i < j < |bs| ==> bs[i].key != bs[j].key)
      && (forall i :: 0 <= i < |bs| ==> bs[i].members != [] && IsSubsequence(bs[i].members, s))
      && (forall i, x :: 0 <= i < |bs| ==> (x in bs[i].members <==> x in s && key(x) == Some(bs[i].key)))
      && (forall x :: x in s && key(x).Some? ==> exists i :: 0 <= i < |bs| && bs[i].key == key(x).value)
      && Size(bs) + |rest| == |s|
  {
    var bs := Blocks(s, key);
    forall x ensures x in Unkeyed(s, key) <==> x in s && key(x).None? {
      UnkeyedMembership(s, key, x);
    }
    FilterIsSubsequence(s, HasNoKey(key));
    BlockKeysDistinct(s, key);
    forall i | 0 <= i < |bs|
      ensures bs[i].members != [] && IsSubsequence(bs[i].members, s)
      ensures forall x :: x in bs[i].members <==> x in s && key(x) == Some(bs[i].key)
    {
      BlockAt(s, key, i);
      FilterIsSubsequence(s, HasKey(key, bs[i].key));
    }
    forall x | x in s && key(x).Some?
      ensures exists i :: 0 <= i < |bs| && bs[i].key == key(x).value
    {
      var i := BlockIndexOf(s, key, x);
    }
    BlocksSize(s, key);
  }

  /** Block keys are keys that elements carry, so whatever holds of those
      holds of the block keys. */
  lemma BlockKeysCarried<T, K>(s: seq<T>, key: T -> Option<K>, ok: K -> bool)
    requires forall x :: x in s && key(x).Some? ==> ok(key(x).value)
    ensures forall i :: 0 <= i < |Blocks(s, key)| ==> ok(Blocks(s, key)[i].key)
  {
    var bs := Blocks(s, key);
    forall i | 0 <= i < |bs| ensures ok(bs[i].key) {
      BlockAt(s, key, i);
      var x := bs[i].members[0];
      GroupMembership(s, key, bs[i].key, x);
    }
  }

  /**
   * The state of a Dictionary<K, List<T>> that lists are only ever
   * appended to, after filing s: its keys in insertion order and, under
   * each key, that key's block.
   */
  predicate Tabulates<T(==), K(==)>(order: seq<K>, lists: map<K, seq<T>>, s: seq<T>, key: T -> Option<K>) {
    && order == Keys(s, key)
    && (forall k :: k in order ==> k in lists)
    && (forall k :: k in lists ==> k in order && lists[k] == Group(s, key, k))
  }

  /** Filing one more element keeps the table in step with the sequence. */
  lemma TabulatesSnoc<T, K>(order: seq<K>, lists: map<K, seq<T>>, s: seq<T>, x: T, key: T -> Option<K>,
                            order': seq<K>, lists': map<K, seq<T>>)
    requires Tabulates(order, lists, s, key)
    requires key(x).None? ==> order' == order && lists' == lists
    requires key(x).Some? ==>
      && order' == (if key(x).value in lists then order else order + [key(x).value])
      && lists' == lists[key(x).value := (if key(x).value in lists then lists[key(x).value] else []) + [x]]
    ensures Tabulates(order', lists', s + [x], key)
  {
    assert (s + [x])[..|s|] == s;
    forall k ensures Group(s + [x], key, k) == Group(s, key, k) + (if key(x) == Some(k) then [x] else []) {
      FilterSnoc(s, x, HasKey(key, k));
    }
    if key(x).Some? && key(x).value !in lists {
      KeysComplete(s, key, key(x).value);
      FilterNone(s, HasKey(key, key(x).value));
    }
  }

  /** The blocks a table holds, in key order. */
  function TableBlocks<K, T>(order: seq<K>, lists: map<K, seq<T>>): seq<Block<K, T>>
    requires forall k :: k in order ==> k in lists
  {
    if order == [] then []
    else TableBlocks(order[..|order| - 1], lists) + [Block(order[|order| - 1], lists[order[|order| - 1]])]
  }

  /** The blocks a table holds are the blocks of what was filed. */
  lemma {:induction false} TableBlocksAre<T, K>(lists: map<K, seq<T>>, s: seq<T>, key: T -> Option<K>, ks: seq<K>)
    requires forall k :: k in ks ==> k in lists && lists[k] == Group(s, key, k)
    ensures TableBlocks(ks, lists) == BlocksOf(s, key, ks)
  {
    if ks != [] {
      TableBlocksAre(lists, s, key, ks[..|ks| - 1]);
    }
  }

  /**
   * A Dictionary<K, List<T>> used as in the groupers: keys are added once,
   * and lists are only appended to.
   */
  class BlockTable<K(==), T> {
    var order: seq<K>
    var lists: map<K, seq<T>>

    constructor()
      ensures order == [] && lists == map[]
    {
      order := [];
      lists := map[];
    }

    /** AddMatch: create the key's list when it is missing, then append x. */
    method Add(k: K, x: T)
      modifies this
      ensures order == (if k in old(lists) then old(order) else old(order) + [k])
      ensures lists == old(lists)[k := (if k in old(lists) then old(lists)[k] else []) + [x]]
    {
      if k !in lists {
        order := order + [k];
        lists := lists[k := []];
      }
      lists := lists[k := lists[k] + [x]];
    }
  }
}
