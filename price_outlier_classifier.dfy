/**
 * Classifying the listings of one product by price
 * (Pipeline/Classification/ProductPriceOutlierClassifer.cs).
 *
 * Every price is first converted to Canadian dollars with the exchange rate
 * of its currency. A listing is a camera when its converted price lies in a
 * band derived from the strong interquartile band: the lower end halved
 * (and never below zero), the upper end multiplied by five, so that kits
 * priced well above the bare camera still pass. With fewer than five
 * listings there is too little to go on and every listing is a camera.
 */
module ProductPriceOutlierClassifier {
  import opened Outcomes
  import opened Domain
  import opened Interquartile

  const LowerRangeMultiplier: real := 0.5
  const UpperRangeMultiplier: real := 5.0
  const MinNumListings: nat := 5

  /** The rates, keyed by their source currency code. */
  datatype Classifier = Classifier(ratesBySource: map<string, ExchangeRate>)

  /** No two rates have the same source currency. */
  predicate SourcesDistinct(rates: seq<ExchangeRate>) {
    forall i, j :: 0 <= i < j < |rates| ==> rates[i].sourceCurrencyCode != rates[j].sourceCurrencyCode
  }

  /** Source currencies are distinct when those after the first are, and
      none of them repeats the first. */
  lemma DistinctCons(rates: seq<ExchangeRate>)
    requires rates != []
    ensures SourcesDistinct(rates) <==>
      SourcesDistinct(rates[1..]) && forall j :: 0 <= j < |rates[1..]| ==> rates[1..][j].sourceCurrencyCode != rates[0].sourceCurrencyCode
  {
    var tail := rates[1..];
    assert forall j :: 0 <= j < |tail| ==> tail[j] == rates[j + 1];
    if SourcesDistinct(tail) && forall j :: 0 <= j < |tail| ==> tail[j].sourceCurrencyCode != rates[0].sourceCurrencyCode {
      forall i, j | 0 <= i < j < |rates|
        ensures rates[i].sourceCurrencyCode != rates[j].sourceCurrencyCode
      {
        if i > 0 {
          assert rates[i] == tail[i - 1] && rates[j] == tail[j - 1];
        }
      }
    }
  }

  /**
   * The ToDictionary of the constructor: a map from each source currency to
   * its rate, or the DuplicateKey failure when a source currency repeats.
   */
  function RatesBySource(rates: seq<ExchangeRate>): (r: Result<map<string, ExchangeRate>>)
    ensures r.Ok? <==> SourcesDistinct(rates)
    ensures r.Err? ==> r.error == DuplicateKey
    ensures r.Ok? ==> forall code :: code in r.value <==> exists i :: 0 <= i < |rates| && rates[i].sourceCurrencyCode == code
    ensures r.Ok? ==> forall i :: 0 <= i < |rates| ==> rates[i].sourceCurrencyCode in r.value && r.value[rates[i].sourceCurrencyCode] == rates[i]
  {
    if rates == [] then Ok(map[])
    else
      var rest := RatesBySource(rates[1..]);
      DistinctCons(rates);
      if rest.Err? then rest
      else if rates[0].sourceCurrencyCode in rest.value then Err(DuplicateKey)
      else
        assert forall i :: 1 <= i < |rates| ==> rates[i] == rates[1..][i - 1];
        Ok(rest.value[rates[0].sourceCurrencyCode := rates[0]])
  }

  /** The constructor. */
  function NewClassifier(rates: seq<ExchangeRate>): (r: Result<Classifier>)
    ensures r.Ok? <==> SourcesDistinct(rates)
    ensures r.Ok? ==> forall i :: 0 <= i < |rates| ==> rates[i].sourceCurrencyCode in r.value.ratesBySource && r.value.ratesBySource[rates[i].sourceCurrencyCode] == rates[i]
  {
    match RatesBySource(rates)
    case Ok(m) => Ok(Classifier(m))
    case Err(e) => Err(e)
  }

  /**
   * GetPriceInCAD: the price times the rate of its currency; the price as it
   * is when the listing has no currency or no rate is known for it.
   */
  function PriceInCAD(c: Classifier, l: Listing): real {
    if l.currencyCode.None? || l.currencyCode.value !in c.ratesBySource then l.price
    else c.ratesBySource[l.currencyCode.value].rate * l.price
  }

  /** The converted prices, in listing order. */
  function NormalizedPrices(c: Classifier, ls: seq<Listing>): seq<real> {
    seq(|ls|, i requires 0 <= i < |ls| => PriceInCAD(c, ls[i]))
  }

  /** The (min, max) camera band: the strong band's lower end, floored at
      zero, halved; its upper end times five. */
  function CameraBand(prices: seq<real>): (real, real)
    requires |prices| > 0
  {
    var range := Band(prices, StrongOutlier);
    ((if range.0 > 0.0 then range.0 else 0.0) * LowerRangeMultiplier, range.1 * UpperRangeMultiplier)
  }

  /** ClassifyAsCamera: each listing in order, paired with its verdict; with
      enough listings a listing is a camera exactly when its converted price
      lies in the camera band of all the converted prices. */
  function ClassifyAsCamera(c: Classifier, pm: ProductMatch): (r: seq<(Listing, bool)>)
    ensures |r| == |pm.listings|
    ensures forall i :: 0 <= i < |r| ==> r[i].0 == pm.listings[i]
    ensures |pm.listings| < MinNumListings ==> forall i :: 0 <= i < |r| ==> r[i].1
    ensures MinNumListings <= |pm.listings| ==> forall i :: 0 <= i < |r| ==>
      (r[i].1 <==> InBand(CameraBand(NormalizedPrices(c, pm.listings)), PriceInCAD(c, pm.listings[i])))
  {
    var ls := pm.listings;
    if |ls| < MinNumListings then
      seq(|ls|, i requires 0 <= i < |ls| => (ls[i], true))
    else
      var prices := NormalizedPrices(c, ls);
      var band := CameraBand(prices);
      seq(|ls|, i requires 0 <= i < |ls| => (ls[i], band.0 <= prices[i] <= band.1))
  }

  /**
   * The camera band widens the strong outlier band on the side of
   * non-negative prices: a non-negative price inside the strong band is
   * always a camera.
   */
  lemma StrongBandIsCamera(c: Classifier, pm: ProductMatch, i: nat)
    requires i < |pm.listings|
    requires var prices := NormalizedPrices(c, pm.listings);
      && PriceInCAD(c, pm.listings[i]) >= 0.0
      && InBand(Band(prices, StrongOutlier), PriceInCAD(c, pm.listings[i]))
    ensures ClassifyAsCamera(c, pm)[i].1
  {
    if MinNumListings <= |pm.listings| {
      var prices := NormalizedPrices(c, pm.listings);
      var range := Band(prices, StrongOutlier);
      var p := prices[i];
      assert range.1 >= 0.0;
      assert range.1 * UpperRangeMultiplier >= range.1;
      assert (if range.0 > 0.0 then range.0 else 0.0) <= p;
    }
  }

  /**
   * Hence the listings at the quartile positions are cameras whenever their
   * converted price is not negative.
   */
  lemma QuartileListingsAreCameras(c: Classifier, pm: ProductMatch)
    requires |pm.listings| > 0
    ensures var ls := pm.listings;
      var q1, q3 := FirstQuartileIndex(|ls|), ThirdQuartileIndex(|ls|);
      && (PriceInCAD(c, ls[q1]) >= 0.0 ==> ClassifyAsCamera(c, pm)[q1].1)
      && (PriceInCAD(c, ls[q3]) >= 0.0 ==> ClassifyAsCamera(c, pm)[q3].1)
  {
    var ls := pm.listings;
    var prices := NormalizedPrices(c, ls);
    QuartileIndicesInRange(|ls|);
    BandHoldsQuartiles(prices, StrongOutlier);
    var q1, q3 := FirstQuartileIndex(|ls|), ThirdQuartileIndex(|ls|);
    if PriceInCAD(c, ls[q1]) >= 0.0 {
      StrongBandIsCamera(c, pm, q1);
    }
    if PriceInCAD(c, ls[q3]) >= 0.0 {
      StrongBandIsCamera(c, pm, q3);
    }
  }

  /** With five listings or more, a listing whose converted price is negative
      is never a camera: the band never reaches below zero. */
  lemma NegativePriceIsNotCamera(c: Classifier, pm: ProductMatch, i: nat)
    requires MinNumListings <= |pm.listings| && i < |pm.listings|
    requires PriceInCAD(c, pm.listings[i]) < 0.0
    ensures !ClassifyAsCamera(c, pm)[i].1
  {
  }

  /** The three rates of the examples make a classifier, with the Canadian
      dollar converted at par. */
  lemma ExampleRates(rates: seq<ExchangeRate>)
    requires rates == [ExchangeRate("CAD", "CAD", 1.0), ExchangeRate("USD", "CAD", 2.0), ExchangeRate("EUR", "CAD", 4.0)]
    ensures NewClassifier(rates).Ok?
    ensures "CAD" in NewClassifier(rates).value.ratesBySource && NewClassifier(rates).value.ratesBySource["CAD"].rate == 1.0
  {
    assert SourcesDistinct(rates);
  }

  /**
   * Seven listings priced 90 to 110 Canadian dollars and one at 2000, with
   * the Canadian dollar at par: the strong band is (70, 140), the camera
   * band (35, 700), and only the 2000 one is not a camera.
   */
  lemma OneExpensiveListingExample(c: Classifier, ls: seq<Listing>, product: Product)
    requires "CAD" in c.ratesBySource && c.ratesBySource["CAD"].rate == 1.0
    requires |ls| == 8 && forall i :: 0 <= i < 8 ==> ls[i].currencyCode == Some("CAD")
    requires ls[0].price == 90.0 && ls[1].price == 100.0 && ls[2].price == 100.0 && ls[3].price == 100.0
    requires ls[4].price == 100.0 && ls[5].price == 100.0 && ls[6].price == 110.0 && ls[7].price == 2000.0
    ensures forall i :: 0 <= i < 8 ==> (ClassifyAsCamera(c, ProductMatch(product, ls))[i].1 <==> i != 7)
  {
    var prices := NormalizedPrices(c, ls);
    assert forall i :: 0 <= i < 8 ==> prices[i] == ls[i].price;
    assert FirstQuartileIndex(8) == 2 && ThirdQuartileIndex(8) == 6;
    assert CameraBand(prices) == (35.0, 700.0);
  }

  /** Six listings priced 306 to 515 with no known rate: all six are cameras. */
  lemma SimilarPricesExample(ls: seq<Listing>, product: Product)
    requires |ls| == 6 && forall i :: 0 <= i < 6 ==> ls[i].currencyCode == Some("")
    requires ls[0].price == 306.0 && ls[1].price == 420.0 && ls[2].price == 365.0
    requires ls[3].price == 386.0 && ls[4].price == 451.0 && ls[5].price == 515.0
    ensures forall i :: 0 <= i < 6 ==> ClassifyAsCamera(Classifier(map[]), ProductMatch(product, ls))[i].1
  {
    var prices := NormalizedPrices(Classifier(map[]), ls);
    assert FirstQuartileIndex(6) == 1 && ThirdQuartileIndex(6) == 4;
    assert CameraBand(prices) == (163.5, 2720.0);
  }
}
