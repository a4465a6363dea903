/**
 * Telling cameras from accessories by price, title words and title phrases
 * (Pipeline/Classification/HeuristicClassifier.cs).
 */
module HeuristicClassifier {
  import opened Chars
  import opened Seqs
  import opened Domain
  import opened StringExtensions
  import Outcomes
  import opened CameraScoring

  /** Listings below this price score in proportion to the square of how
      near zero they are. */
  const LowCost: real := 80.0

  /** Words typical of accessory listings ("for" starts "for {camera}"). */
  const AccessoryWords: seq<string> := ["bag", "body", "battery", "only", "for", "für", "pour"]

  /** Words typical of camera listings ("with" starts "camera with ..."). */
  const CameraWords: seq<string> := ["mp", "megapixel", "mega", "pixel", "mpix", "compact", "zoom",
    "optical", "stabilized", "digitalkamera", "digital", "with", "livré avec"]

  /** The price score: zero from 80 up; below it, -100 scaled by how far the
      squared price falls short of 80 squared. */
  function LowCostScore(price: real): (r: real)
    ensures price >= LowCost ==> r == 0.0
    ensures 0.0 <= price ==> -100.0 <= r <= 0.0
  {
    if price < LowCost then
      var squared := price * price;
      SquareBelowLowCost(price);
      -100.0 * (LowCost - squared / LowCost) / LowCost
    else 0.0
  }

  /** Multiplying by a non-negative factor keeps the order. */
  lemma MulMonotone(a: real, b: real, c: real)
    requires 0.0 <= a && b <= c
    ensures a * b <= a * c && b * a <= c * a
  {
    assert a * c - a * b == a * (c - b);
    assert c * a - b * a == a * (c - b);
  }

  /** Squaring keeps the order of non-negative numbers. */
  lemma SquareMonotone(p: real, q: real)
    requires 0.0 <= p <= q
    ensures 0.0 <= p * p <= q * q
  {
    MulMonotone(p, 0.0, p);
    MulMonotone(p, p, q);
    MulMonotone(q, p, q);
    assert p * p <= p * q;
    assert q * p <= q * q;
    assert p * q == q * p;
  }

  /** A non-negative price below 80 squares to below 80 squared. */
  lemma SquareBelowLowCost(price: real)
    ensures 0.0 <= price < LowCost ==> 0.0 <= price * price <= 6400.0
  {
    if 0.0 <= price < LowCost {
      SquareMonotone(price, 80.0);
      assert 80.0 * 80.0 == 6400.0;
    }
  }

  /** The more a listing costs, the less its price counts against it. */
  lemma LowCostScoreMonotone(p: real, q: real)
    requires 0.0 <= p <= q
    ensures LowCostScore(p) <= LowCostScore(q)
  {
    if q < LowCost {
      var pp, qq := p * p, q * q;
      SquareMonotone(p, q);
      assert pp <= qq;
      assert LowCostScore(p) == -100.0 * (LowCost - pp / LowCost) / LowCost;
      assert LowCostScore(q) == -100.0 * (LowCost - qq / LowCost) / LowCost;
    }
  }

  /** A sixth of the price score stays above -10 exactly when the squared
      price exceeds 2560. */
  lemma LowCostScoreCutoff(p: real)
    ensures LowCostScore(p) / 6.0 > -10.0 <==> p * p > 2560.0
  {
    if p >= LowCost {
      assert p * p >= p * LowCost >= LowCost * LowCost;
    } else if p <= -LowCost {
      assert p * p >= -p * LowCost >= LowCost * LowCost;
    }
  }

  /** The total score of a price and the tokens of a title. */
  function Score(price: real, tokens: seq<string>): real {
    IsCameraScore(LowCostScore(price),
      NonCameraWordWeight * WordsPresent(AccessoryWords, tokens),
      CameraWordWeight * WordsPresent(CameraWords, tokens),
      tokens)
  }

  /** The verdict on a price and the tokens of a title. */
  predicate IsCamera(price: real, tokens: seq<string>) {
    Score(price, tokens) > IsCameraThreshold
  }

  /** ClassifyAsCamera: the verdict on the listing's price and the
      white-space tokens of its title. */
  predicate ClassifyAsCamera(listing: Listing) {
    IsCamera(listing.price, TokenizeOnWhiteSpace(listing.title))
  }

  /** No token of a title is a listed word. */
  predicate Plain(tokens: seq<string>) {
    forall t :: t in tokens ==> t !in AccessoryWords && t !in CameraWords
  }

  /**
   * A title with no listed word is judged by price alone: its score is 100
   * plus a sixth of the price score, so it is a camera exactly when the
   * squared price exceeds 2560 (a price above about 50.60); from 80 up the
   * score is exactly 100.
   */
  lemma PlainTitleThreshold(price: real, tokens: seq<string>)
    requires Plain(tokens)
    ensures IsCamera(price, tokens) <==> price * price > 2560.0
    ensures price >= LowCost ==> Score(price, tokens) == 100.0
  {
    assert "with" == CameraWords[11] && "for" == AccessoryWords[4];
    NoListedWords(LowCostScore(price), AccessoryWords, CameraWords, tokens);
    LowCostScoreCutoff(price);
  }

  /**
   * A title with "for" after its first word and no camera word is never a
   * camera at a non-negative price: "for" counts as an accessory word and
   * as the start of "for {camera}", which caps the score at 81.
   */
  lemma ForPhraseWithoutCameraWords(price: real, tokens: seq<string>, i: nat)
    requires price >= 0.0
    requires 0 < i < |tokens| && tokens[i] == "for"
    requires forall w :: w in CameraWords ==> w !in tokens
    ensures !IsCamera(price, tokens)
  {
    assert "with" == CameraWords[11] && "for" == AccessoryWords[4];
    FilterMembership(AccessoryWords, OccursIn(tokens), "for");
    assert WordsPresent(AccessoryWords, tokens) >= 1;
    WordsPresentZero(CameraWords, tokens);
    AbsentPhraseWords(tokens);
    ForAfterFirstToken(tokens, i);
  }

  /**
   * "camera with" (the last "with" of the title, after its first word)
   * makes a full-price listing without accessory words a camera.
   */
  lemma CameraWithPhrase(price: real, tokens: seq<string>, i: nat)
    requires price >= LowCost
    requires 0 < i < |tokens| && tokens[i - 1] == "camera" && tokens[i] == "with"
    requires forall j :: i < j < |tokens| ==> tokens[j] != "with"
    requires forall w :: w in AccessoryWords ==> w !in tokens
    ensures IsCamera(price, tokens)
  {
    assert "for" == AccessoryWords[4];
    WordsPresentZero(AccessoryWords, tokens);
    AbsentPhraseWords(tokens);
    CameraWithAt(tokens, i);
  }

  /** The listed word "livré avec" holds a space, so it is never a token of
      a title and never adds to the score. */
  lemma TwoWordCameraWordNeverMatches(title: string)
    ensures "livré avec" in CameraWords
    ensures "livré avec" !in TokenizeOnWhiteSpace(title)
  {
    assert CameraWords[12] == "livré avec";
    SplitTokensHaveNoSeparator(title, IsWhiteSpace);
    assert !NoSeparator("livré avec", IsWhiteSpace) by {
      assert IsWhiteSpace("livré avec"[5]);
    }
  }

  /** A full-price title of ordinary words, "samsung pl210 black" at 153.99,
      is a camera. */
  lemma PlainCameraExample(price: real, tokens: seq<string>)
    requires tokens == ["samsung", "pl210", "black"] && price == 153.99
    ensures IsCamera(price, tokens)
  {
    assert "samsung" !in AccessoryWords && "samsung" !in CameraWords;
    assert "pl210" !in AccessoryWords && "pl210" !in CameraWords;
    assert "black" !in AccessoryWords && "black" !in CameraWords;
    PlainTitleThreshold(price, tokens);
  }

  /** HeuristicClassifierTests: the listing titled "samsung pl210 black"
      (already in field form) at 153.99 is classified as a camera, its
      tokens taken from the title by the white-space tokeniser. */
  lemma PlainCameraListingExample()
    ensures ClassifyAsCamera(Listing("", "samsung pl210 black", Outcomes.Some("gbp"), 153.99, ""))
  {
    PlainTitleTokens();
    PlainCameraExample(153.99, ["samsung", "pl210", "black"]);
  }

  /** The white-space tokens of "samsung pl210 black". */
  lemma PlainTitleTokens()
    ensures TokenizeOnWhiteSpace("samsung pl210 black") == ["samsung", "pl210", "black"]
  {
    var tokens := ["samsung", "pl210", "black"];
    assert NoSeparator(tokens[0], IsWhiteSpace) && NoSeparator(tokens[1], IsWhiteSpace)
        && NoSeparator(tokens[2], IsWhiteSpace);
    SplitJoin(tokens, ' ', IsWhiteSpace);
    assert Join(tokens, ' ') == "samsung pl210 black";
  }

  /** "canon lp e6 battery for canon eos 5d mark ii 7d lpe6" at 54.88 is not
      a camera. */
  lemma BatteryForCameraExample(price: real, tokens: seq<string>)
    requires tokens == ["canon", "lp", "e6", "battery", "for", "canon", "eos", "5d", "mark", "ii", "7d", "lpe6"]
    requires price == 54.88
    ensures !IsCamera(price, tokens)
  {
    ForPhraseWithoutCameraWords(price, tokens, 4);
  }
}
