/**
 * Dropping accessory listings by title text
 * (Pipeline/Pruning/DeterministicAccessoryPruner.cs).
 *
 * A listing is dropped when its title holds "accessory", "bag" or "case"
 * anywhere, as a block of characters and not as a word: "briefcase" holds
 * "case". The comparison is by character, so case matters. The products
 * handed in are not consulted.
 */
module DeterministicAccessoryPruner {
  import opened Seqs
  import opened Domain

  /** The title holds one of the three accessory markers. */
  predicate MarksAccessory(title: string) {
    Contains(title, "accessory") || Contains(title, "bag") || Contains(title, "case")
  }

  /** The listings that pass the three tests of the loop body. */
  function Kept(): Listing -> bool {
    (l: Listing) => !MarksAccessory(l.title)
  }

  /** A listing is kept exactly when it is one of the input listings whose
      title holds no marker, and then as many times as it is given. */
  lemma KeptMembership(listings: seq<Listing>)
    ensures forall l :: l in Filter(listings, Kept()) <==> l in listings && !MarksAccessory(l.title)
    ensures forall l ::
      multiset(Filter(listings, Kept()))[l] ==
      if !MarksAccessory(l.title) then multiset(listings)[l] else 0
  {
    forall l
      ensures l in Filter(listings, Kept()) <==> l in listings && !MarksAccessory(l.title)
      ensures multiset(Filter(listings, Kept()))[l] == if !MarksAccessory(l.title) then multiset(listings)[l] else 0
    {
      FilterMembership(listings, Kept(), l);
      FilterMultiplicity(listings, Kept(), l);
    }
  }

  /**
   * Prune: the listings whose titles hold none of the markers, in their
   * input order; every such listing is kept, every copy of it included,
   * and no kept listing holds a marker.
   */
  function Prune(products: seq<Product>, listings: seq<Listing>): (r: seq<Listing>)
    ensures IsSubsequence(r, listings)
    ensures forall l :: l in r <==> l in listings && !MarksAccessory(l.title)
    ensures forall l :: multiset(r)[l] == if !MarksAccessory(l.title) then multiset(listings)[l] else 0
    ensures forall i :: 0 <= i < |r| ==>
      !Contains(r[i].title, "accessory") && !Contains(r[i].title, "bag") && !Contains(r[i].title, "case")
  {
    FilterIsSubsequence(listings, Kept());
    KeptMembership(listings);
    Filter(listings, Kept())
  }

  /** Nothing is dropped from a list whose titles hold no marker, and
      everything is dropped from a list whose titles all hold one. */
  lemma PruneAllOrNothing(products: seq<Product>, listings: seq<Listing>)
    ensures (forall i :: 0 <= i < |listings| ==> !MarksAccessory(listings[i].title)) ==> Prune(products, listings) == listings
    ensures (forall i :: 0 <= i < |listings| ==> MarksAccessory(listings[i].title)) ==> Prune(products, listings) == []
  {
    FilterAll(listings, Kept());
    if forall i :: 0 <= i < |listings| ==> MarksAccessory(listings[i].title) {
      FilterNone(listings, Kept());
    }
  }

  /** Markers are found inside words: a "leather briefcase" is dropped. */
  lemma InsideWordExample(products: seq<Product>, l: Listing)
    requires l.title == "leather briefcase"
    ensures Prune(products, [l]) == []
  {
    assert OccursAt(l.title, "case", 13);
    PruneAllOrNothing(products, [l]);
  }

  /** The comparison is by character: "Bag" is not "bag", so an unmunged
      "Bag" title is kept. */
  lemma CaseMattersExample(products: seq<Product>, l: Listing)
    requires l.title == "Bag"
    ensures Prune(products, [l]) == [l]
  {
    assert !Contains(l.title, "bag") by {
      assert l.title[0..3][0] != "bag"[0];
    }
    PruneAllOrNothing(products, [l]);
  }
}
