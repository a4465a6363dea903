/**
 * The earlier rule-based camera classifier
 * (Pipeline/Classification/DeterministicClassifier.cs): the same scoring
 * shape as the heuristic classifier with a linear price score below 75,
 * three accessory words and seven camera words. "with" and "for" are read
 * only by the phrase scores.
 */
module DeterministicClassifier {
  import opened Seqs
  import opened Domain
  import opened StringExtensions
  import opened CameraScoring

  const LowCost: real := 75.0

  /** Words typical of accessory listings. */
  const AccessoryWords: seq<string> := ["bag", "body", "battery"]

  /** Words typical of camera listings. */
  const CameraWords: seq<string> := ["mp", "megapixel", "zoom", "optical", "stabilized", "digitalkamera", "digital"]

  /** The price score: zero from 75 up, and below it -100 scaled by how far
      the price falls short of 75; it never rewards a price. */
  function LowCostScore(price: real): (r: real)
    ensures r <= 0.0
    ensures r == 0.0 <==> price >= LowCost
    ensures 0.0 <= price ==> -100.0 <= r
  {
    if price < LowCost then (1.0 - price / LowCost) * -100.0 else 0.0
  }

  /** The more a listing costs, the less its price counts against it. */
  lemma LowCostScoreMonotone(p: real, q: real)
    requires p <= q
    ensures LowCostScore(p) <= LowCostScore(q)
  {
  }

  /** The total score of a price and the tokens of a title. */
  function Score(price: real, tokens: seq<string>): real {
    IsCameraScore(LowCostScore(price),
      NonCameraWordWeight * WordsPresent(AccessoryWords, tokens),
      CameraWordWeight * WordsPresent(CameraWords, tokens),
      tokens)
  }

  /** The verdict on a price and the tokens of a title. */
  predicate IsCamera(price: real, tokens: seq<string>) {
    Score(price, tokens) > IsCameraThreshold
  }

  /** ClassifyAsCamera: the verdict on the listing's price and the
      white-space tokens of its title; the token probabilities handed in
      are not consulted. */
  predicate ClassifyAsCamera(probabilityPerToken: map<string, real>, listing: Listing) {
    IsCamera(listing.price, TokenizeOnWhiteSpace(listing.title))
  }

  /** No token of a title is a listed word, "with" or "for". */
  predicate Plain(tokens: seq<string>) {
    && (forall t :: t in tokens ==> t !in AccessoryWords && t !in CameraWords)
    && "with" !in tokens && "for" !in tokens
  }

  /** A sixth of the accessory-word score, by how many of the three words
      occur: 0, -3, -6 or -10. */
  lemma AccessorySixth(tokens: seq<string>)
    ensures var a := WordsPresent(AccessoryWords, tokens);
      Sixth(NonCameraWordWeight * a) == (if a == 3 then -10 else -3 * a)
  {
    var a := WordsPresent(AccessoryWords, tokens);
    assert a <= 3;
  }

  /**
   * A plain title is judged by price alone: its score is 100 plus a sixth
   * of the price score, so it is a camera exactly when its price exceeds 30;
   * from 75 up the score is exactly 100.
   */
  lemma PlainTitleThreshold(price: real, tokens: seq<string>)
    requires Plain(tokens)
    ensures IsCamera(price, tokens) <==> price > 30.0
    ensures price >= LowCost ==> Score(price, tokens) == 100.0
  {
    NoListedWords(LowCostScore(price), AccessoryWords, CameraWords, tokens);
  }

  /**
   * At full price and with neither phrase word, only the word counts
   * decide: the listing is a camera unless all three accessory words occur
   * and no camera word does.
   */
  lemma FullPriceVerdict(price: real, tokens: seq<string>)
    requires price >= LowCost
    requires "with" !in tokens && "for" !in tokens
    ensures IsCamera(price, tokens) <==>
      WordsPresent(AccessoryWords, tokens) < 3 || WordsPresent(CameraWords, tokens) > 0
  {
    AbsentPhraseWords(tokens);
    AccessorySixth(tokens);
  }

  /**
   * A "for" after the first word, with no camera word and no "with", is
   * never a camera: the for-phrase alone costs 16 points and nothing can
   * make them up.
   */
  lemma ForPhraseWithoutCameraWords(price: real, tokens: seq<string>, i: nat)
    requires 0 < i < |tokens| && tokens[i] == "for"
    requires "with" !in tokens
    requires forall w :: w in CameraWords ==> w !in tokens
    ensures !IsCamera(price, tokens)
  {
    WordsPresentZero(CameraWords, tokens);
    AbsentPhraseWords(tokens);
    ForAfterFirstToken(tokens, i);
    AccessorySixth(tokens);
  }

  /**
   * "camera with" (the last "with" of the title, after its first word)
   * makes a full-price listing without "for" a camera, whatever accessory
   * words it holds.
   */
  lemma CameraWithPhrase(price: real, tokens: seq<string>, i: nat)
    requires price >= LowCost
    requires 0 < i < |tokens| && tokens[i - 1] == "camera" && tokens[i] == "with"
    requires forall j :: i < j < |tokens| ==> tokens[j] != "with"
    requires "for" !in tokens
    ensures IsCamera(price, tokens)
  {
    AbsentPhraseWords(tokens);
    CameraWithAt(tokens, i);
    AccessorySixth(tokens);
  }

  /** At full price, with neither phrase word, all three accessory words
      and no camera word, the score sits exactly on the threshold. */
  lemma AllAccessoryWordsOnThreshold(price: real, tokens: seq<string>)
    requires price >= LowCost
    requires "with" !in tokens && "for" !in tokens
    requires WordsPresent(AccessoryWords, tokens) == 3 && WordsPresent(CameraWords, tokens) == 0
    ensures Score(price, tokens) == IsCameraThreshold
  {
    AbsentPhraseWords(tokens);
    AccessorySixth(tokens);
  }

  /** The tokens of the example title below hold every accessory word, no
      camera word and neither phrase word. */
  lemma BodyBagBatteryTokens(tokens: seq<string>)
    requires tokens == ["nikon", "d300s", "camera", "body", "only", "up", "rise", "34", "shoulder",
      "bag", "16", "gb", "sdhc", "memory", "card", "battery", "en", "el3e"]
    ensures "with" !in tokens && "for" !in tokens
    ensures forall w :: w in CameraWords ==> w !in tokens
    ensures forall i :: 0 <= i < |AccessoryWords| ==> AccessoryWords[i] in tokens
  {
    assert tokens[9] == "bag" && tokens[3] == "body" && tokens[15] == "battery";
  }

  /**
   * "nikon d300s camera body only up rise 34 shoulder bag 16 gb sdhc memory
   * card battery en el3e" at 1781.41 holds all three accessory words and no
   * camera word: it scores exactly 90, which is not above the threshold.
   */
  lemma BodyBagBatteryExample(price: real, tokens: seq<string>)
    requires tokens == ["nikon", "d300s", "camera", "body", "only", "up", "rise", "34", "shoulder",
      "bag", "16", "gb", "sdhc", "memory", "card", "battery", "en", "el3e"]
    requires price == 1781.41
    ensures Score(price, tokens) == 90.0
    ensures !IsCamera(price, tokens)
  {
    BodyBagBatteryTokens(tokens);
    FilterAll(AccessoryWords, OccursIn(tokens));
    WordsPresentZero(CameraWords, tokens);
    AllAccessoryWordsOnThreshold(price, tokens);
  }

  /** "canon lp e6 battery for canon eos 5d mark ii 7d lpe6" at 54.88 is not
      a camera: "for" follows its first word and nothing offsets it. */
  lemma BatteryForCameraExample(price: real, tokens: seq<string>)
    requires tokens == ["canon", "lp", "e6", "battery", "for", "canon", "eos", "5d", "mark", "ii", "7d", "lpe6"]
    requires price == 54.88
    ensures !IsCamera(price, tokens)
  {
    assert "with" !in tokens;
    assert forall w :: w in CameraWords ==> w !in tokens;
    ForPhraseWithoutCameraWords(price, tokens, 4);
  }

  /**
   * Three camera words outweigh any non-negative price: without accessory
   * words and without "for" such a listing is a camera.
   */
  lemma ThreeCameraWordsOutweighPrice(price: real, tokens: seq<string>)
    requires price >= 0.0
    requires forall w :: w in AccessoryWords ==> w !in tokens
    requires "for" !in tokens
    requires WordsPresent(CameraWords, tokens) >= 3
    ensures IsCamera(price, tokens)
  {
    WordsPresentZero(AccessoryWords, tokens);
    AbsentPhraseWords(tokens);
  }

  /** The tokens of the example title below hold no accessory word and no
      "for". */
  lemma CompactCameraTokensAbsent(tokens: seq<string>)
    requires tokens == ["agfaphoto", "optima", "102", "digitalkamera", "12", "megapixel", "3", "fach", "opt",
      "zoom", "3", "zoll", "display", "bildstabilisiert", "rot"]
    ensures "for" !in tokens
    ensures forall w :: w in AccessoryWords ==> w !in tokens
  {
  }

  /** The tokens of the example title below hold three of the camera
      words. */
  lemma CompactCameraTokensPresent(tokens: seq<string>)
    requires tokens == ["agfaphoto", "optima", "102", "digitalkamera", "12", "megapixel", "3", "fach", "opt",
      "zoom", "3", "zoll", "display", "bildstabilisiert", "rot"]
    ensures "megapixel" in tokens && "zoom" in tokens && "digitalkamera" in tokens
  {
    assert tokens[5] == "megapixel" && tokens[9] == "zoom" && tokens[3] == "digitalkamera";
  }

  /** The tokens of the example title below miss the other four camera
      words. */
  lemma CompactCameraTokensMissing(tokens: seq<string>)
    requires tokens == ["agfaphoto", "optima", "102", "digitalkamera", "12", "megapixel", "3", "fach", "opt",
      "zoom", "3", "zoll", "display", "bildstabilisiert", "rot"]
    ensures "mp" !in tokens && "optical" !in tokens && "stabilized" !in tokens && "digital" !in tokens
  {
  }

  /** Exactly "megapixel", "zoom" and "digitalkamera" of the camera words
      among the tokens count three. */
  lemma ThreeCameraWordsPresent(tokens: seq<string>)
    requires "megapixel" in tokens && "zoom" in tokens && "digitalkamera" in tokens
    requires "mp" !in tokens && "optical" !in tokens && "stabilized" !in tokens && "digital" !in tokens
    ensures WordsPresent(CameraWords, tokens) == 3
  {
    var present := OccursIn(tokens);
    var words := CameraWords;
    assert Filter(words[6..], present) == [] by {
      assert words[6..][1..] == [];
    }
    assert Filter(words[5..], present) == ["digitalkamera"] by {
      assert words[5..][1..] == words[6..];
    }
    assert Filter(words[4..], present) == ["digitalkamera"] by {
      assert words[4..][1..] == words[5..];
    }
    assert Filter(words[3..], present) == ["digitalkamera"] by {
      assert words[3..][1..] == words[4..];
    }
    assert Filter(words[2..], present) == ["zoom", "digitalkamera"] by {
      assert words[2..][1..] == words[3..];
    }
    assert Filter(words[1..], present) == ["megapixel", "zoom", "digitalkamera"] by {
      assert words[1..][1..] == words[2..];
    }
  }

  /** "agfaphoto optima 102 digitalkamera 12 megapixel 3 fach opt zoom 3 zoll
      display bildstabilisiert rot" at 66.61 is a camera despite its low
      price. */
  lemma CompactCameraExample(price: real, tokens: seq<string>)
    requires tokens == ["agfaphoto", "optima", "102", "digitalkamera", "12", "megapixel", "3", "fach", "opt",
      "zoom", "3", "zoll", "display", "bildstabilisiert", "rot"]
    requires price == 66.61
    ensures IsCamera(price, tokens)
  {
    CompactCameraTokensAbsent(tokens);
    CompactCameraTokensPresent(tokens);
    CompactCameraTokensMissing(tokens);
    ThreeCameraWordsPresent(tokens);
    ThreeCameraWordsOutweighPrice(price, tokens);
  }
}
