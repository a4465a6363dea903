/**
 * Manufacturer alias discovery (Pipeline/Analysis/SimilarityAliasGenerator.cs):
 * a listing whose manufacturer name resembles a catalogue manufacturer's
 * and whose title mentions one of that manufacturer's models proposes its
 * own manufacturer name as an alias. The per-listing scans run in parallel
 * in the source; here they run one after the other, which changes nothing
 * because the per-pair totals are sums.
 */
module SimilarityAlias {
  import opened Outcomes
  import opened Seqs
  import opened Domain
  import opened StringExtensions
  import CanonicalNames

  /** Lowest name score for which a product is considered at all. */
  const ManufacturerNameMatchCutoff := 33
  const PerfectMatch := 100

  /** A candidate (canonical, alias) pair; two are equal when both names are. */
  datatype PossibleAlias = PossibleAlias(canonical: string, alias: string)

  /** A listing's chosen pair with the model score that won it. */
  datatype Choice = Choice(pair: PossibleAlias, score: real)

  /** GenerateManufacturerNameNGrams: the character n-grams of every
      catalogue manufacturer name, keyed by that name. */
  function NameNGrams(products: seq<Product>): (r: map<string, seq<string>>)
    ensures r.Keys == CanonicalNames.Generate(products)
  {
    map m | m in CanonicalNames.Generate(products) :: CharacterNGrams(m)
  }

  /** How many of the n-grams occur in the listing's manufacturer name. */
  function NameHits(listingName: string, grams: seq<string>): (n: nat)
    ensures n <= |grams|
  {
    if grams == [] then 0
    else NameHits(listingName, grams[..|grams| - 1])
         + (if Contains(listingName, grams[|grams| - 1]) then 1 else 0)
  }

  /**
   * CompareManufacturerNameSimilarity as a value: 0 for a product name
   * without n-grams on record, a division by zero for one with an empty
   * n-gram list, and otherwise the percentage of its n-grams found in the
   * listing name, rounded down.
   */
  function NameSimilarity(ngrams: map<string, seq<string>>, listingName: string, productName: string): (r: Result<int>)
    ensures productName !in ngrams ==> r == Ok(0)
    ensures r.Err? <==> productName in ngrams && ngrams[productName] == []
    ensures r.Err? ==> r.error == DivideByZero
    ensures r.Ok? ==> 0 <= r.value <= 100
  {
    if productName !in ngrams then Ok(0)
    else
      var grams := ngrams[productName];
      if |grams| == 0 then Err(DivideByZero)
      else Ok((100 * NameHits(listingName, grams)) / |grams|)
  }

  /** CompareManufacturerNameSimilarity: the loop counting nameHit. */
  method CompareManufacturerNameSimilarity(ngrams: map<string, seq<string>>, listingName: string, productName: string)
    returns (r: Result<int>)
    ensures r == NameSimilarity(ngrams, listingName, productName)
  {
    if productName !in ngrams {
      return Ok(0);
    }
    var grams := ngrams[productName];
    var nameHit := 0;
    var i := 0;
    while i < |grams|
      invariant 0 <= i <= |grams|
      invariant nameHit == NameHits(listingName, grams[..i])
    {
      assert grams[..i + 1][..i] == grams[..i];
      if Contains(listingName, grams[i]) {
        nameHit := nameHit + 1;
      }
      i := i + 1;
    }
    assert grams[..i] == grams;
    if |grams| == 0 {
      return Err(DivideByZero);
    }
    r := Ok((100 * nameHit) / |grams|);
  }

  /** When every n-gram occurs in the listing name, the hit count is all of them. */
  lemma {:induction false} AllHit(listingName: string, grams: seq<string>)
    requires forall j :: 0 <= j < |grams| ==> Contains(listingName, grams[j])
    ensures NameHits(listingName, grams) == |grams|
  {
    if grams != [] {
      AllHit(listingName, grams[..|grams| - 1]);
    }
  }

  /** A catalogue name of fewer than two characters has no n-grams, so
      comparing any listing against it divides by zero. */
  lemma ShortNameDividesByZero(products: seq<Product>, listingName: string, productName: string)
    requires productName in CanonicalNames.Generate(products)
    requires |productName| < 2
    ensures NameSimilarity(NameNGrams(products), listingName, productName) == Err(DivideByZero)
  {
  }

  /** A listing name containing the whole catalogue name (of two or more
      characters) scores a perfect 100. */
  lemma ContainedNameScoresPerfect(products: seq<Product>, listingName: string, productName: string)
    requires productName in CanonicalNames.Generate(products)
    requires |productName| >= 2
    requires Contains(listingName, productName)
    ensures NameSimilarity(NameNGrams(products), listingName, productName) == Ok(PerfectMatch)
  {
    var grams := CharacterNGrams(productName);
    assert NameNGrams(products)[productName] == grams;
    assert |grams| > 0;
    forall j | 0 <= j < |grams|
      ensures Contains(listingName, grams[j])
    {
      CharacterNGramOccurs(productName, j);
      ContainsTransitive(listingName, productName, grams[j]);
    }
    AllHit(listingName, grams);
    WholePercent(|grams|);
  }

  lemma WholePercent(n: int)
    requires n > 0
    ensures (100 * n) / n == 100
  {
    assert 100 * n == 100 * n + 0;
  }

  /**
   * What the scan makes of one product for a listing: the error the name
   * comparison raises, a skip (name score under the cutoff, the listing's
   * own manufacturer name scoring a perfect match, or a model score that
   * is not positive), or the product's positive model score.
   */
  function CandidateScore(ngrams: map<string, seq<string>>, listing: Listing, product: Product,
                          modelScore: (string, string) -> real): Result<Option<real>>
  {
    match NameSimilarity(ngrams, listing.manufacturer, product.manufacturer)
    case Err(e) => Err(e)
    case Ok(nameScore) =>
      if nameScore < ManufacturerNameMatchCutoff then Ok(None)
      else if nameScore == PerfectMatch && product.manufacturer == listing.manufacturer then Ok(None)
      else
        var ms := modelScore(listing.title, product.model);
        if ms <= 0.0 then Ok(None) else Ok(Some(ms))
  }

  /** The pair a listing proposes when it picks a product. */
  function PairFor(listing: Listing, product: Product): PossibleAlias {
    PossibleAlias(product.manufacturer, listing.manufacturer)
  }

  /** The per-listing scan over the products in order: a candidate replaces
      the best so far only with a strictly smaller model score. */
  function BestMatch(ngrams: map<string, seq<string>>, listing: Listing, products: seq<Product>,
                     modelScore: (string, string) -> real): (r: Result<Option<Choice>>)
    ensures r.Err? ==> r.error == DivideByZero
    ensures r.Ok? && r.value.Some? ==> r.value.value.score > 0.0
  {
    if products == [] then Ok(None)
    else
      match BestMatch(ngrams, listing, products[..|products| - 1], modelScore)
      case Err(e) => Err(e)
      case Ok(best) =>
        var p := products[|products| - 1];
        match CandidateScore(ngrams, listing, p, modelScore)
        case Err(e) => Err(e)
        case Ok(None) => Ok(best)
        case Ok(Some(ms)) =>
          if best.None? || ms < best.value.score then Ok(Some(Choice(PairFor(listing, p), ms)))
          else Ok(best)
  }

  /** The scan over products for one listing, as the loop in Generate does it. */
  method ScanListing(ngrams: map<string, seq<string>>, listing: Listing, products: seq<Product>,
                     modelScore: (string, string) -> real) returns (r: Result<Option<Choice>>)
    ensures r == BestMatch(ngrams, listing, products, modelScore)
  {
    var bestMatch: Option<Choice> := None;
    var i := 0;
    while i < |products|
      invariant 0 <= i <= |products|
      invariant BestMatch(ngrams, listing, products[..i], modelScore) == Ok(bestMatch)
    {
      var product := products[i];
      assert products[..i + 1][..i] == products[..i];
      var nameScore := CompareManufacturerNameSimilarity(ngrams, listing.manufacturer, product.manufacturer);
      if nameScore.Err? {
        ErrorPersists(ngrams, listing, products, modelScore, i + 1);
        return Err(nameScore.error);
      }
      if nameScore.value < ManufacturerNameMatchCutoff {
      } else if nameScore.value == PerfectMatch && product.manufacturer == listing.manufacturer {
      } else {
        var ms := modelScore(listing.title, product.model);
        if ms <= 0.0 {
        } else if bestMatch.None? || ms < bestMatch.value.score {
          bestMatch := Some(Choice(PairFor(listing, product), ms));
        }
      }
      i := i + 1;
    }
    assert products[..i] == products;
    r := Ok(bestMatch);
  }

  /** An error part-way through the products is the result of the whole scan. */
  lemma {:induction false} ErrorPersists(ngrams: map<string, seq<string>>, listing: Listing, products: seq<Product>,
                                         modelScore: (string, string) -> real, n: nat)
    requires n <= |products|
    requires BestMatch(ngrams, listing, products[..n], modelScore).Err?
    ensures BestMatch(ngrams, listing, products, modelScore) == BestMatch(ngrams, listing, products[..n], modelScore)
    decreases |products| - n
  {
    if n < |products| {
      assert products[..n + 1][..n] == products[..n];
      ErrorPersists(ngrams, listing, products, modelScore, n + 1);
    } else {
      assert products[..n] == products;
    }
  }

  /** The product is a candidate for the listing, with a positive model score. */
  predicate Offers(ngrams: map<string, seq<string>>, listing: Listing, product: Product,
                   modelScore: (string, string) -> real) {
    var c := CandidateScore(ngrams, listing, product, modelScore);
    c.Ok? && c.value.Some?
  }

  function Offer(ngrams: map<string, seq<string>>, listing: Listing, product: Product,
                 modelScore: (string, string) -> real): real
    requires Offers(ngrams, listing, product, modelScore)
  {
    CandidateScore(ngrams, listing, product, modelScore).value.value
  }

  /** The scan fails exactly when comparing the listing with some product fails. */
  lemma {:induction false} BestMatchFails(ngrams: map<string, seq<string>>, listing: Listing, products: seq<Product>,
                                          modelScore: (string, string) -> real)
    ensures BestMatch(ngrams, listing, products, modelScore).Err? <==>
      exists j :: 0 <= j < |products| && CandidateScore(ngrams, listing, products[j], modelScore).Err?
  {
    if products != [] {
      var ps := products[..|products| - 1];
      BestMatchFails(ngrams, listing, ps, modelScore);
      if exists j :: 0 <= j < |ps| && CandidateScore(ngrams, listing, ps[j], modelScore).Err? {
        var j :| 0 <= j < |ps| && CandidateScore(ngrams, listing, ps[j], modelScore).Err?;
        assert products[j] == ps[j];
      }
      if exists j :: 0 <= j < |products| && CandidateScore(ngrams, listing, products[j], modelScore).Err? {
        var j :| 0 <= j < |products| && CandidateScore(ngrams, listing, products[j], modelScore).Err?;
        if j < |ps| {
          assert ps[j] == products[j];
        }
      }
    }
  }

  /** Product i is a candidate with the given score, every earlier
      candidate scores strictly more and no later one scores less. */
  predicate FirstMinimumAt(ngrams: map<string, seq<string>>, listing: Listing, products: seq<Product>,
                           modelScore: (string, string) -> real, i: int, score: real) {
    && 0 <= i < |products|
    && Offers(ngrams, listing, products[i], modelScore)
    && Offer(ngrams, listing, products[i], modelScore) == score
    && (forall j :: 0 <= j < i && Offers(ngrams, listing, products[j], modelScore) ==>
          Offer(ngrams, listing, products[j], modelScore) > score)
    && (forall j :: i <= j < |products| && Offers(ngrams, listing, products[j], modelScore) ==>
          Offer(ngrams, listing, products[j], modelScore) >= score)
  }

  /** A successful scan picks nothing exactly when no product is a candidate. */
  lemma {:induction false} BestMatchNone(ngrams: map<string, seq<string>>, listing: Listing,
                                         products: seq<Product>, modelScore: (string, string) -> real)
    requires BestMatch(ngrams, listing, products, modelScore).Ok?
    ensures BestMatch(ngrams, listing, products, modelScore).value.None? <==>
      forall j :: 0 <= j < |products| ==> !Offers(ngrams, listing, products[j], modelScore)
  {
    if products != [] {
      var ps := products[..|products| - 1];
      assert forall j :: 0 <= j < |ps| ==> ps[j] == products[j];
      BestMatchNone(ngrams, listing, ps, modelScore);
    }
  }

  lemma FirstMinimumExtend(ngrams: map<string, seq<string>>, listing: Listing, ps: seq<Product>, p: Product,
                           modelScore: (string, string) -> real, i: int, score: real)
    requires FirstMinimumAt(ngrams, listing, ps, modelScore, i, score)
    requires Offers(ngrams, listing, p, modelScore) ==> Offer(ngrams, listing, p, modelScore) >= score
    ensures FirstMinimumAt(ngrams, listing, ps + [p], modelScore, i, score)
  {
    var qs := ps + [p];
    assert forall j :: 0 <= j < |ps| ==> qs[j] == ps[j];
    assert qs[|ps|] == p;
  }

  lemma FirstMinimumNew(ngrams: map<string, seq<string>>, listing: Listing, ps: seq<Product>, p: Product,
                        modelScore: (string, string) -> real)
    requires Offers(ngrams, listing, p, modelScore)
    requires forall j :: 0 <= j < |ps| && Offers(ngrams, listing, ps[j], modelScore) ==>
      Offer(ngrams, listing, ps[j], modelScore) > Offer(ngrams, listing, p, modelScore)
    ensures FirstMinimumAt(ngrams, listing, ps + [p], modelScore, |ps|, Offer(ngrams, listing, p, modelScore))
  {
    var qs := ps + [p];
    assert forall j :: 0 <= j < |ps| ==> qs[j] == ps[j];
    assert qs[|ps|] == p;
  }

  /**
   * When the scan picks a pair, it comes from the first product whose
   * positive model score is the smallest among all candidates.
   */
  lemma {:induction false} BestMatchIsFirstMinimum(ngrams: map<string, seq<string>>, listing: Listing,
                                                   products: seq<Product>, modelScore: (string, string) -> real)
    requires BestMatch(ngrams, listing, products, modelScore).Ok?
    requires BestMatch(ngrams, listing, products, modelScore).value.Some?
    ensures var c := BestMatch(ngrams, listing, products, modelScore).value.value;
      exists i :: FirstMinimumAt(ngrams, listing, products, modelScore, i, c.score)
        && c.pair == PairFor(listing, products[i])
  {
    var ps, p := products[..|products| - 1], products[|products| - 1];
    assert products == ps + [p];
    var prev := BestMatch(ngrams, listing, ps, modelScore).value;
    var c := BestMatch(ngrams, listing, products, modelScore).value.value;
    if Offers(ngrams, listing, p, modelScore) && (prev.None? || Offer(ngrams, listing, p, modelScore) < prev.value.score) {
      if prev.None? {
        BestMatchNone(ngrams, listing, ps, modelScore);
      } else {
        BestMatchIsFirstMinimum(ngrams, listing, ps, modelScore);
      }
      FirstMinimumNew(ngrams, listing, ps, p, modelScore);
      assert FirstMinimumAt(ngrams, listing, products, modelScore, |ps|, c.score);
    } else {
      BestMatchIsFirstMinimum(ngrams, listing, ps, modelScore);
      var i :| FirstMinimumAt(ngrams, listing, ps, modelScore, i, c.score) && c.pair == PairFor(listing, ps[i]);
      FirstMinimumExtend(ngrams, listing, ps, p, modelScore, i, c.score);
      assert products[i] == ps[i];
    }
  }

  /** A pair the scan picks never has the listing's manufacturer name as
      both canonical name and alias. */
  lemma ChosenPairNotReflexive(products: seq<Product>, listing: Listing, modelScore: (string, string) -> real)
    requires BestMatch(NameNGrams(products), listing, products, modelScore).Ok?
    requires BestMatch(NameNGrams(products), listing, products, modelScore).value.Some?
    ensures var c := BestMatch(NameNGrams(products), listing, products, modelScore).value.value;
      c.pair.canonical != c.pair.alias
  {
    var ngrams := NameNGrams(products);
    var c := BestMatch(ngrams, listing, products, modelScore).value.value;
    BestMatchIsFirstMinimum(ngrams, listing, products, modelScore);
    var i :| FirstMinimumAt(ngrams, listing, products, modelScore, i, c.score)
      && c.pair == PairFor(listing, products[i]);
    OfferNotReflexive(products, listing, products[i], modelScore);
  }

  /** A product never offers itself under its own manufacturer name: a
      name of two or more characters matches itself perfectly and is
      skipped, and a shorter one makes the comparison fail. */
  lemma OfferNotReflexive(products: seq<Product>, listing: Listing, p: Product, modelScore: (string, string) -> real)
    requires p in products
    requires Offers(NameNGrams(products), listing, p, modelScore)
    ensures p.manufacturer != listing.manufacturer
  {
    if p.manufacturer == listing.manufacturer {
      assert p.manufacturer in CanonicalNames.Generate(products);
      if |p.manufacturer| < 2 {
        ShortNameDividesByZero(products, listing.manufacturer, p.manufacturer);
      } else {
        assert OccursAt(listing.manufacturer, p.manufacturer, 0);
        ContainedNameScoresPerfect(products, listing.manufacturer, p.manufacturer);
      }
    }
  }

  /** GetCommonTokens: the tokens whose probability exceeds the value
      read at the common-word percentile. `percentile` stands for that
      read; it yields one of the map's values. An empty map has no value
      to read and the index is out of range. */
  function CommonTokens(probs: map<string, real>, percentile: map<string, real> -> real): (r: Result<set<string>>)
    requires probs != map[] ==> percentile(probs) in probs.Values
    ensures r.Err? <==> probs == map[]
    ensures r.Err? ==> r.error == ArgumentOutOfRange
    ensures r.Ok? ==> r.value < probs.Keys
  {
    if probs == map[] then Err(ArgumentOutOfRange)
    else
      var cutoff := percentile(probs);
      var common := set t | t in probs && probs[t] > cutoff;
      var k :| k in probs && probs[k] == cutoff;
      assert k !in common;
      Ok(common)
  }

  /** The model score of a listing title against a product model, given
      which tokens are too common to count. */
  function ScoreWith(modelScore: (set<string>, string, string) -> real, common: set<string>): (string, string) -> real {
    (title, model) => modelScore(common, title, model)
  }

  /** Every listing's scan in order, or the error one of them raises. */
  function Choices(ngrams: map<string, seq<string>>, listings: seq<Listing>, products: seq<Product>,
                   modelScore: (string, string) -> real): (r: Result<seq<Option<Choice>>>)
    ensures r.Ok? <==> forall i :: 0 <= i < |listings| ==> BestMatch(ngrams, listings[i], products, modelScore).Ok?
    ensures r.Err? ==> r.error == DivideByZero
    ensures r.Ok? ==> |r.value| == |listings|
    ensures r.Ok? ==> forall i :: 0 <= i < |listings| ==> BestMatch(ngrams, listings[i], products, modelScore) == Ok(r.value[i])
  {
    if listings == [] then Ok([])
    else
      var init := listings[..|listings| - 1];
      assert forall i :: 0 <= i < |init| ==> init[i] == listings[i];
      match Choices(ngrams, init, products, modelScore)
      case Err(e) => Err(e)
      case Ok(cs) =>
        match BestMatch(ngrams, listings[|listings| - 1], products, modelScore)
        case Err(e) => Err(e)
        case Ok(c) => Ok(cs + [c])
  }

  /** AddOrUpdate: a pair's total grows by the score, or starts at it. */
  function AddScore(acc: map<PossibleAlias, real>, c: Choice): (r: map<PossibleAlias, real>)
    ensures r.Keys == acc.Keys + {c.pair}
    ensures forall k :: k in acc && k != c.pair ==> r[k] == acc[k]
  {
    if c.pair in acc then acc[c.pair := acc[c.pair] + c.score] else acc[c.pair := c.score]
  }

  /** The accumulator after the listings' choices have been added in order. */
  function Totals(choices: seq<Option<Choice>>): map<PossibleAlias, real> {
    if choices == [] then map[]
    else
      var acc := Totals(choices[..|choices| - 1]);
      match choices[|choices| - 1]
      case None => acc
      case Some(c) => AddScore(acc, c)
  }

  /** Some listing chose the pair. */
  predicate Chose(choices: seq<Option<Choice>>, pair: PossibleAlias) {
    exists i :: 0 <= i < |choices| && choices[i].Some? && choices[i].value.pair == pair
  }

  /** The sum of the winning scores of the listings that chose the pair. */
  function SumFor(choices: seq<Option<Choice>>, pair: PossibleAlias): real {
    if choices == [] then 0.0
    else
      SumFor(choices[..|choices| - 1], pair)
      + match choices[|choices| - 1]
        case Some(c) => if c.pair == pair then c.score else 0.0
        case None => 0.0
  }

  /** The accumulator holds exactly the chosen pairs, each with the sum of
      the scores of the listings that chose it. */
  lemma {:induction false} TotalsAreSums(choices: seq<Option<Choice>>)
    ensures forall k :: k in Totals(choices) <==> Chose(choices, k)
    ensures forall k :: k in Totals(choices) ==> Totals(choices)[k] == SumFor(choices, k)
  {
    if choices != [] {
      var init := choices[..|choices| - 1];
      TotalsAreSums(init);
      assert forall j :: 0 <= j < |init| ==> init[j] == choices[j];
      var last := choices[|choices| - 1];
      if last.Some? {
        assert Chose(choices, last.value.pair);
        if last.value.pair !in Totals(init) {
          assert SumFor(init, last.value.pair) == 0.0 by {
            NotChosenSumsToZero(init, last.value.pair);
          }
        }
      }
    }
  }

  lemma {:induction false} NotChosenSumsToZero(choices: seq<Option<Choice>>, pair: PossibleAlias)
    requires !Chose(choices, pair)
    ensures SumFor(choices, pair) == 0.0
  {
    if choices != [] {
      var init := choices[..|choices| - 1];
      assert !Chose(init, pair) by {
        forall i | 0 <= i < |init| && init[i].Some? ensures init[i].value.pair != pair {
          assert choices[i] == init[i];
        }
      }
      NotChosenSumsToZero(init, pair);
      assert !(choices[|choices| - 1].Some? && choices[|choices| - 1].value.pair == pair);
    }
  }

  /** With positive winning scores every total is positive. */
  lemma {:induction false} TotalsPositive(choices: seq<Option<Choice>>)
    requires forall i :: 0 <= i < |choices| && choices[i].Some? ==> choices[i].value.score > 0.0
    ensures forall k :: k in Totals(choices) ==> Totals(choices)[k] > 0.0
  {
    if choices != [] {
      TotalsPositive(choices[..|choices| - 1]);
    }
  }

  /** The cutoff: the alias percentile of the totals when there are at
      least two pairs, and 0 otherwise. */
  function Cutoff(acc: map<PossibleAlias, real>, percentile: map<PossibleAlias, real> -> real): real {
    if |acc| > 1 then percentile(acc) else 0.0
  }

  /** The pairs whose total exceeds the cutoff, as aliases. */
  function Selected(acc: map<PossibleAlias, real>, percentile: map<PossibleAlias, real> -> real): (r: set<ManufacturerNameAlias>)
    ensures forall a :: a in r ==> PossibleAlias(a.canonical, a.alias) in acc
  {
    set k | k in acc && acc[k] > Cutoff(acc, percentile) :: ManufacturerNameAlias(k.canonical, k.alias)
  }

  /**
   * Generate as a value: the common tokens, the scan of every listing
   * over every product, the per-pair totals and the pairs above the
   * cutoff. `commonPercentile`, `modelScore` and `aliasPercentile` stand
   * for the floating-point parts of the source.
   */
  function Aliases(products: seq<Product>, listings: seq<Listing>, probs: map<string, real>,
                   commonPercentile: map<string, real> -> real,
                   modelScore: (set<string>, string, string) -> real,
                   aliasPercentile: map<PossibleAlias, real> -> real): Result<set<ManufacturerNameAlias>>
    requires probs != map[] ==> commonPercentile(probs) in probs.Values
  {
    match CommonTokens(probs, commonPercentile)
    case Err(e) => Err(e)
    case Ok(common) =>
      match Choices(NameNGrams(products), listings, products, ScoreWith(modelScore, common))
      case Err(e) => Err(e)
      case Ok(choices) => Ok(Selected(Totals(choices), aliasPercentile))
  }

  /** One more successful scan extends the choices of the listings so far. */
  lemma ChoicesStep(ngrams: map<string, seq<string>>, listings: seq<Listing>, products: seq<Product>,
                    modelScore: (string, string) -> real, i: nat, choices: seq<Option<Choice>>, c: Option<Choice>)
    requires i < |listings|
    requires Choices(ngrams, listings[..i], products, modelScore) == Ok(choices)
    requires BestMatch(ngrams, listings[i], products, modelScore) == Ok(c)
    ensures Choices(ngrams, listings[..i + 1], products, modelScore) == Ok(choices + [c])
  {
    assert listings[..i + 1][..i] == listings[..i];
  }

  /** Adding one more choice to the totals. */
  lemma TotalsSnoc(choices: seq<Option<Choice>>, c: Option<Choice>)
    ensures Totals(choices + [c]) == if c.Some? then AddScore(Totals(choices), c.value) else Totals(choices)
  {
    assert (choices + [c])[..|choices|] == choices;
  }

  /** Generate: the listings are scanned one by one and their winning
      scores added into the accumulator. */
  method Generate(products: seq<Product>, listings: seq<Listing>, probs: map<string, real>,
                  commonPercentile: map<string, real> -> real,
                  modelScore: (set<string>, string, string) -> real,
                  aliasPercentile: map<PossibleAlias, real> -> real)
    returns (r: Result<set<ManufacturerNameAlias>>)
    requires probs != map[] ==> commonPercentile(probs) in probs.Values
    ensures r == Aliases(products, listings, probs, commonPercentile, modelScore, aliasPercentile)
  {
    var commonTokens := CommonTokens(probs, commonPercentile);
    if commonTokens.Err? {
      return Err(commonTokens.error);
    }
    var ngrams := NameNGrams(products);
    var score := ScoreWith(modelScore, commonTokens.value);
    var possibleAliases: map<PossibleAlias, real> := map[];
    ghost var choices: seq<Option<Choice>> := [];
    var i := 0;
    while i < |listings|
      invariant 0 <= i <= |listings|
      invariant Choices(ngrams, listings[..i], products, score) == Ok(choices)
      invariant possibleAliases == Totals(choices)
    {
      var best := ScanListing(ngrams, listings[i], products, score);
      if best.Err? {
        assert Choices(ngrams, listings, products, score).Err?;
        return Err(best.error);
      }
      ChoicesStep(ngrams, listings, products, score, i, choices, best.value);
      TotalsSnoc(choices, best.value);
      choices := choices + [best.value];
      if best.value.Some? {
        possibleAliases := AddScore(possibleAliases, best.value.value);
      }
      i := i + 1;
    }
    assert listings[..i] == listings;
    r := Ok(Selected(possibleAliases, aliasPercentile));
  }

  /** An empty probability map makes Generate fail before any scan. */
  lemma EmptyProbabilitiesThrow(products: seq<Product>, listings: seq<Listing>,
                                commonPercentile: map<string, real> -> real,
                                modelScore: (set<string>, string, string) -> real,
                                aliasPercentile: map<PossibleAlias, real> -> real)
    ensures Aliases(products, listings, map[], commonPercentile, modelScore, aliasPercentile) == Err(ArgumentOutOfRange)
  {
  }

  /** No alias Generate returns maps a manufacturer name to itself. */
  lemma NoReflexiveAlias(products: seq<Product>, listings: seq<Listing>, probs: map<string, real>,
                         commonPercentile: map<string, real> -> real,
                         modelScore: (set<string>, string, string) -> real,
                         aliasPercentile: map<PossibleAlias, real> -> real)
    requires probs != map[] ==> commonPercentile(probs) in probs.Values
    requires Aliases(products, listings, probs, commonPercentile, modelScore, aliasPercentile).Ok?
    ensures forall a :: a in Aliases(products, listings, probs, commonPercentile, modelScore, aliasPercentile).value ==>
      a.canonical != a.alias
  {
    var common := CommonTokens(probs, commonPercentile).value;
    var ngrams, score := NameNGrams(products), ScoreWith(modelScore, common);
    var choices := Choices(ngrams, listings, products, score).value;
    TotalsAreSums(choices);
    forall a | a in Selected(Totals(choices), aliasPercentile)
      ensures a.canonical != a.alias
    {
      var k := PossibleAlias(a.canonical, a.alias);
      var i :| 0 <= i < |choices| && choices[i].Some? && choices[i].value.pair == k;
      ChosenPairNotReflexive(products, listings[i], score);
    }
  }

  /** With at most one distinct pair the cutoff is 0, so every chosen pair
      is returned. */
  lemma AtMostOnePairAllReturned(products: seq<Product>, listings: seq<Listing>, probs: map<string, real>,
                                 commonPercentile: map<string, real> -> real,
                                 modelScore: (set<string>, string, string) -> real,
                                 aliasPercentile: map<PossibleAlias, real> -> real,
                                 common: set<string>, choices: seq<Option<Choice>>)
    requires probs != map[] ==> commonPercentile(probs) in probs.Values
    requires CommonTokens(probs, commonPercentile) == Ok(common)
    requires Choices(NameNGrams(products), listings, products, ScoreWith(modelScore, common)) == Ok(choices)
    requires |Totals(choices)| <= 1
    ensures forall i :: 0 <= i < |choices| && choices[i].Some? ==>
      var k := choices[i].value.pair;
      ManufacturerNameAlias(k.canonical, k.alias) in Aliases(products, listings, probs, commonPercentile, modelScore, aliasPercentile).value
  {
    var ngrams, score := NameNGrams(products), ScoreWith(modelScore, common);
    TotalsAreSums(choices);
    forall i | 0 <= i < |choices| && choices[i].Some?
      ensures choices[i].value.score > 0.0
    {
      assert BestMatch(ngrams, listings[i], products, score) == Ok(choices[i]);
    }
    TotalsPositive(choices);
    forall i | 0 <= i < |choices| && choices[i].Some?
      ensures var k := choices[i].value.pair; ManufacturerNameAlias(k.canonical, k.alias) in Selected(Totals(choices), aliasPercentile)
    {
      assert Chose(choices, choices[i].value.pair);
    }
  }

  /** When every token is equally probable, no token is common. */
  lemma UniformProbabilitiesNoCommonTokens(probs: map<string, real>, v: real, percentile: map<string, real> -> real)
    requires probs != map[]
    requires percentile(probs) in probs.Values
    requires forall t :: t in probs ==> probs[t] == v
    ensures CommonTokens(probs, percentile) == Ok({})
  {
    var k :| k in probs && probs[k] == percentile(probs);
    assert percentile(probs) == v;
    assert (set t | t in probs && probs[t] > percentile(probs)) == {};
  }

  /**
   * One product and one listing whose manufacturer name contains the
   * product's (two or more characters, not equal): when the listing title
   * gives the model a positive score, the pair (product manufacturer,
   * listing manufacturer) is the only alias returned.
   */
  lemma SinglePossibleMatch(p: Product, l: Listing, probs: map<string, real>, v: real,
                            commonPercentile: map<string, real> -> real,
                            modelScore: (set<string>, string, string) -> real,
                            aliasPercentile: map<PossibleAlias, real> -> real)
    requires |p.manufacturer| >= 2 && Contains(l.manufacturer, p.manufacturer) && p.manufacturer != l.manufacturer
    requires probs != map[] && commonPercentile(probs) in probs.Values
    requires forall t :: t in probs ==> probs[t] == v
    requires modelScore({}, l.title, p.model) > 0.0
    ensures Aliases([p], [l], probs, commonPercentile, modelScore, aliasPercentile)
      == Ok({ManufacturerNameAlias(p.manufacturer, l.manufacturer)})
  {
    UniformProbabilitiesNoCommonTokens(probs, v, commonPercentile);
    var score := ScoreWith(modelScore, {});
    var c := Choice(PossibleAlias(p.manufacturer, l.manufacturer), modelScore({}, l.title, p.model));
    assert score(l.title, p.model) == c.score;
    SingleScan(p, l, score);
    assert Choices(NameNGrams([p]), [l], [p], score) == Ok([Some(c)]) by {
      assert [l][..0] == [];
      assert Choices(NameNGrams([p]), [l][..0], [p], score) == Ok([]);
      assert [] + [Some(c)] == [Some(c)];
    }
    SingleChoiceSelected(c, aliasPercentile);
    assert Aliases([p], [l], probs, commonPercentile, modelScore, aliasPercentile)
      == Ok(Selected(Totals([Some(c)]), aliasPercentile));
  }

  /** One product whose name the listing's contains, under another name. */
  lemma SingleScan(p: Product, l: Listing, score: (string, string) -> real)
    requires |p.manufacturer| >= 2 && Contains(l.manufacturer, p.manufacturer) && p.manufacturer != l.manufacturer
    requires score(l.title, p.model) > 0.0
    ensures BestMatch(NameNGrams([p]), l, [p], score)
      == Ok(Some(Choice(PossibleAlias(p.manufacturer, l.manufacturer), score(l.title, p.model))))
  {
    assert p.manufacturer in CanonicalNames.Generate([p]);
    ContainedNameScoresPerfect([p], l.manufacturer, p.manufacturer);
    assert [p][..0] == [];
  }

  /** A single positive choice is returned whatever the percentile. */
  lemma SingleChoiceSelected(c: Choice, aliasPercentile: map<PossibleAlias, real> -> real)
    requires c.score > 0.0
    ensures Selected(Totals([Some(c)]), aliasPercentile) == {ManufacturerNameAlias(c.pair.canonical, c.pair.alias)}
  {
    assert [Some(c)][..0] == [];
    assert Totals([Some(c)][..0]) == map[];
    var acc := Totals([Some(c)]);
    assert acc == AddScore(map[], c);
    assert acc == map[c.pair := c.score];
    assert acc.Keys == {c.pair};
    assert Cutoff(acc, aliasPercentile) == 0.0;
  }

  /** The "acme" / "acme corp" case: the listing's name is proposed as an
      alias of the catalogue's. */
  lemma AcmeExample(acme: string, acmeCorp: string, p: Product, l: Listing, probs: map<string, real>,
                    commonPercentile: map<string, real> -> real,
                    modelScore: (set<string>, string, string) -> real,
                    aliasPercentile: map<PossibleAlias, real> -> real)
    requires acme == "acme" && acmeCorp == "acme corp"
    requires p.manufacturer == acme && l.manufacturer == acmeCorp
    requires probs != map[] && commonPercentile(probs) in probs.Values
    requires forall t :: t in probs ==> probs[t] == 1.0
    requires modelScore({}, l.title, p.model) > 0.0
    ensures Aliases([p], [l], probs, commonPercentile, modelScore, aliasPercentile)
      == Ok({ManufacturerNameAlias(acme, acmeCorp)})
  {
    assert OccursAt(acmeCorp, acme, 0);
    SinglePossibleMatch(p, l, probs, 1.0, commonPercentile, modelScore, aliasPercentile);
  }
}
