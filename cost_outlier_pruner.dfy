/**
 * Dropping the listings of a product whose price is out of line
 * (Pipeline/Pruning/ProductMatchCostOutlierPruner.cs).
 *
 * For every product match, the prices of its listings are converted to
 * Canadian dollars and the listings whose converted price lies outside the
 * weak interquartile band of those prices are dropped.
 */
module ProductMatchCostOutlierPruner {
  import opened Outcomes
  import opened Seqs
  import opened Domain
  import opened Interquartile
  import PriceClassifier = ProductPriceOutlierClassifier

  /** The rates, keyed by their source currency code, as handed in. */
  datatype Pruner = Pruner(ratesBySource: map<string, ExchangeRate>)

  /** The converted price of a listing that has a currency code: the price
      times the rate, or the price itself when no rate is known. */
  function Converted(p: Pruner, l: Listing): real {
    if l.currencyCode.Some? && l.currencyCode.value in p.ratesBySource
    then p.ratesBySource[l.currencyCode.value].rate * l.price
    else l.price
  }

  /**
   * GetPriceInCAD. The dictionary lookup rejects a missing currency code
   * with ArgumentNullException; an unknown code leaves the price as it is.
   */
  function PriceInCAD(p: Pruner, l: Listing): (r: Result<real>)
    ensures r.Err? <==> l.currencyCode.None?
    ensures r.Err? ==> r.error == ArgumentNull
    ensures r.Ok? && l.currencyCode.value !in p.ratesBySource ==> r.value == l.price
    ensures r.Ok? && l.currencyCode.value in p.ratesBySource ==> r.value == p.ratesBySource[l.currencyCode.value].rate * l.price
  {
    if l.currencyCode.None? then Err(ArgumentNull) else Ok(Converted(p, l))
  }

  /** The converted prices, in listing order; the first listing without a
      currency code makes the whole conversion fail. */
  function NormalizedPrices(p: Pruner, ls: seq<Listing>): (r: Result<seq<real>>)
    ensures r.Err? <==> exists i :: 0 <= i < |ls| && PriceInCAD(p, ls[i]).Err?
    ensures r.Err? ==> r.error == ArgumentNull
    ensures r.Ok? ==> |r.value| == |ls| && forall i :: 0 <= i < |ls| ==> Ok(r.value[i]) == PriceInCAD(p, ls[i])
  {
    if exists i :: 0 <= i < |ls| && ls[i].currencyCode.None? then Err(ArgumentNull)
    else Ok(seq(|ls|, i requires 0 <= i < |ls| => Converted(p, ls[i])))
  }

  /** Where clause of PruneListingsForProduct. */
  function Typical(p: Pruner, band: (real, real)): Listing -> bool {
    l => InBand(band, Converted(p, l))
  }

  /**
   * PruneListingsForProduct: the listings whose converted price lies in the
   * weak band of all the converted prices, in their original order. An
   * empty list fails in the band computation.
   */
  function PruneListings(p: Pruner, ls: seq<Listing>): (r: Result<seq<Listing>>)
  {
    match NormalizedPrices(p, ls)
    case Err(e) => Err(e)
    case Ok(prices) =>
      match WeakRange(prices)
      case Err(e) => Err(e)
      case Ok(band) => Ok(Filter(ls, Typical(p, band)))
  }

  /** The weak band of a list of listings that all carry a currency code. */
  function WeakBandOf(p: Pruner, ls: seq<Listing>): (real, real)
    requires NormalizedPrices(p, ls).Ok? && ls != []
  {
    Band(NormalizedPrices(p, ls).value, WeakOutlier)
  }

  /** Pruning a product's listings fails exactly when there are none, or
      when one has no currency code; the missing code is reported first. */
  lemma PruneListingsFails(p: Pruner, ls: seq<Listing>)
    ensures PruneListings(p, ls).Err? <==> ls == [] || exists i :: 0 <= i < |ls| && ls[i].currencyCode.None?
    ensures PruneListings(p, ls).Err? ==>
      PruneListings(p, ls).error == if exists i :: 0 <= i < |ls| && ls[i].currencyCode.None? then ArgumentNull else ArgumentOutOfRange
  {
    if exists i :: 0 <= i < |ls| && ls[i].currencyCode.None? {
      var i :| 0 <= i < |ls| && ls[i].currencyCode.None?;
      assert PriceInCAD(p, ls[i]).Err?;
    }
  }

  /**
   * The kept listings are taken from the product's listings in their order,
   * and a listing is kept exactly when its converted price lies in the weak
   * band, as many times as it is given.
   */
  lemma KeptAreTypical(p: Pruner, ls: seq<Listing>)
    requires PruneListings(p, ls).Ok?
    ensures ls != [] && NormalizedPrices(p, ls).Ok?
    ensures var kept := PruneListings(p, ls).value;
      && IsSubsequence(kept, ls)
      && (forall l :: l in kept <==> l in ls && InBand(WeakBandOf(p, ls), Converted(p, l)))
      && (forall l :: multiset(kept)[l] == if InBand(WeakBandOf(p, ls), Converted(p, l)) then multiset(ls)[l] else 0)
  {
    var kept := PruneListings(p, ls).value;
    var band := WeakBandOf(p, ls);
    FilterIsSubsequence(ls, Typical(p, band));
    forall l
      ensures l in kept <==> l in ls && InBand(band, Converted(p, l))
      ensures multiset(kept)[l] == if InBand(band, Converted(p, l)) then multiset(ls)[l] else 0
    {
      FilterMembership(ls, Typical(p, band), l);
      FilterMultiplicity(ls, Typical(p, band), l);
    }
  }

  /**
   * Pruning never empties a product: the listings at the two quartile
   * positions are always kept, since the weak band holds both quartiles.
   */
  lemma QuartileListingsKept(p: Pruner, ls: seq<Listing>)
    requires PruneListings(p, ls).Ok?
    ensures ls != []
    ensures ls[FirstQuartileIndex(|ls|)] in PruneListings(p, ls).value
    ensures ls[ThirdQuartileIndex(|ls|)] in PruneListings(p, ls).value
    ensures PruneListings(p, ls).value != []
  {
    KeptAreTypical(p, ls);
    var prices := NormalizedPrices(p, ls).value;
    QuartileIndicesInRange(|ls|);
    BandHoldsQuartiles(prices, WeakOutlier);
    assert Ok(prices[FirstQuartileIndex(|ls|)]) == PriceInCAD(p, ls[FirstQuartileIndex(|ls|)]);
    assert Ok(prices[ThirdQuartileIndex(|ls|)]) == PriceInCAD(p, ls[ThirdQuartileIndex(|ls|)]);
  }

  /** The i-th match is the first whose pruning fails. */
  predicate FirstFailure(p: Pruner, matches: seq<ProductMatch>, i: nat)
    requires i < |matches|
  {
    PruneListings(p, matches[i].listings).Err? && forall j :: 0 <= j < i ==> PruneListings(p, matches[j].listings).Ok?
  }

  lemma FirstFailureCons(p: Pruner, matches: seq<ProductMatch>, i: nat)
    requires i + 1 < |matches| && PruneListings(p, matches[0].listings).Ok?
    requires FirstFailure(p, matches[1..], i)
    ensures FirstFailure(p, matches, i + 1)
  {
    forall j | 0 <= j < i + 1
      ensures PruneListings(p, matches[j].listings).Ok?
    {
      if j > 0 {
        assert matches[j] == matches[1..][j - 1];
      }
    }
  }

  /**
   * Prune: one output per match, in order, with the same product and its
   * pruned listings; the first match whose pruning fails makes the whole
   * enumeration fail with that error.
   */
  function Prune(p: Pruner, matches: seq<ProductMatch>): (r: Result<seq<ProductMatch>>)
    ensures r.Ok? <==> forall i :: 0 <= i < |matches| ==> PruneListings(p, matches[i].listings).Ok?
    ensures r.Ok? ==> |r.value| == |matches| && forall i :: 0 <= i < |matches| ==>
      r.value[i] == ProductMatch(matches[i].product, PruneListings(p, matches[i].listings).value)
    ensures r.Err? ==> exists i :: 0 <= i < |matches| && FirstFailure(p, matches, i) && PruneListings(p, matches[i].listings) == Err(r.error)
  {
    if matches == [] then Ok([])
    else
      var head := PruneListings(p, matches[0].listings);
      var tail := matches[1..];
      assert forall i :: 1 <= i < |matches| ==> matches[i] == tail[i - 1];
      if head.Err? then Err(head.error)
      else
        var rest := Prune(p, tail);
        if rest.Err? then
          var i :| 0 <= i < |tail| && FirstFailure(p, tail, i) && PruneListings(p, tail[i].listings) == Err(rest.error);
          FirstFailureCons(p, matches, i);
          Err(rest.error)
        else
          Ok([ProductMatch(matches[0].product, head.value)] + rest.value)
  }

  /** Three listings priced 90, 100 and 110 Canadian dollars: the weak band
      is (60, 140) and all three are kept. */
  lemma SimilarPricesExample(p: Pruner, ls: seq<Listing>)
    requires "CAD" in p.ratesBySource && p.ratesBySource["CAD"].rate == 1.0
    requires |ls| == 3 && forall i :: 0 <= i < 3 ==> ls[i].currencyCode == Some("CAD")
    requires ls[0].price == 90.0 && ls[1].price == 100.0 && ls[2].price == 110.0
    ensures PruneListings(p, ls) == Ok(ls)
  {
    var prices := NormalizedPrices(p, ls).value;
    assert forall i :: 0 <= i < 3 ==> prices[i] == ls[i].price;
    assert FirstQuartileIndex(3) == 0 && ThirdQuartileIndex(3) == 2;
    var band := WeakBandOf(p, ls);
    assert band == (60.0, 140.0);
    FilterAll(ls, Typical(p, band));
  }

  /**
   * Seven listings priced 90 to 110 Canadian dollars and one at 2000: the
   * weak band is (85, 125) and exactly the first seven are kept.
   */
  lemma OneExpensiveListingExample(p: Pruner, ls: seq<Listing>)
    requires "CAD" in p.ratesBySource && p.ratesBySource["CAD"].rate == 1.0
    requires |ls| == 8 && forall i :: 0 <= i < 8 ==> ls[i].currencyCode == Some("CAD")
    requires ls[0].price == 90.0 && ls[1].price == 100.0 && ls[2].price == 100.0 && ls[3].price == 100.0
    requires ls[4].price == 100.0 && ls[5].price == 100.0 && ls[6].price == 110.0 && ls[7].price == 2000.0
    ensures PruneListings(p, ls) == Ok(ls[..7])
  {
    var prices := NormalizedPrices(p, ls).value;
    assert forall i :: 0 <= i < 8 ==> prices[i] == ls[i].price;
    assert FirstQuartileIndex(8) == 2 && ThirdQuartileIndex(8) == 6;
    var band := WeakBandOf(p, ls);
    assert band == (85.0, 125.0);
    var typical := Typical(p, band);
    assert ls == ls[..7] + [ls[7]];
    assert !typical(ls[7]);
    assert forall i :: 0 <= i < 7 ==> typical(ls[..7][i]);
    FilterSnoc(ls[..7], ls[7], typical);
    FilterAll(ls[..7], typical);
    assert Filter(ls, typical) == ls[..7];
    assert WeakRange(prices) == Ok(band);
  }

  /**
   * The two GetPriceInCAD copies, given the same rates, agree on every
   * listing with a currency code; they differ only on a listing without
   * one, which the pruner rejects and the classifier prices as it is.
   */
  lemma PriceInCADAgrees(c: PriceClassifier.Classifier, p: Pruner, l: Listing)
    requires c.ratesBySource == p.ratesBySource
    ensures l.currencyCode.Some? ==> PriceInCAD(p, l) == Ok(PriceClassifier.PriceInCAD(c, l))
    ensures l.currencyCode.None? ==> PriceInCAD(p, l) == Err(ArgumentNull) && PriceClassifier.PriceInCAD(c, l) == l.price
  {
    if l.currencyCode.Some? {
      assert PriceClassifier.PriceInCAD(c, l) == Converted(p, l);
    }
  }

  /**
   * So the converted prices agree too: the pruner's are the classifier's
   * when every listing has a currency code, and it fails when one has none.
   */
  lemma NormalizedPricesAgree(c: PriceClassifier.Classifier, p: Pruner, ls: seq<Listing>)
    requires c.ratesBySource == p.ratesBySource
    ensures (forall i :: 0 <= i < |ls| ==> ls[i].currencyCode.Some?) ==>
      NormalizedPrices(p, ls) == Ok(PriceClassifier.NormalizedPrices(c, ls))
    ensures (exists i :: 0 <= i < |ls| && ls[i].currencyCode.None?) ==> NormalizedPrices(p, ls) == Err(ArgumentNull)
  {
    var cp := PriceClassifier.NormalizedPrices(c, ls);
    forall i | 0 <= i < |ls|
      ensures PriceInCAD(p, ls[i]).Err? <==> ls[i].currencyCode.None?
      ensures ls[i].currencyCode.Some? ==> PriceInCAD(p, ls[i]) == Ok(cp[i])
    {
      PriceInCADAgrees(c, p, ls[i]);
    }
    if forall i :: 0 <= i < |ls| ==> ls[i].currencyCode.Some? {
      var r := NormalizedPrices(p, ls);
      assert r.Ok?;
      assert r.value == cp;
    }
  }
}
