/**
 * The scoring shape shared by the two rule-based camera classifiers
 * (Pipeline/Classification/HeuristicClassifier.cs and
 * Pipeline/Classification/DeterministicClassifier.cs).
 *
 * Both add to a base of 100 a sixth of each of six component scores: a
 * price score, a score per listed word found among the title tokens, and
 * three phrase scores ("camera with ...", "for ...", "for ... with ...").
 * The price score is a decimal and is divided exactly; the others are
 * integers and are divided with C#'s integer division, which rounds toward
 * zero. A listing is a camera when the total exceeds 90.
 */
module CameraScoring {
  import opened Seqs
  import opened ListExtensions

  const NonCameraWordWeight: int := -20
  const CameraWordWeight: int := 20
  const PhraseWeight: int := 100
  const IsCameraThreshold: real := 90.0

  /** A sixth of an integer score with C#'s integer division, which
      rounds toward zero: a sixth of -20 is -3 where Dafny's own is -4. */
  function Sixth(a: int): (q: int)
    ensures a >= 0 ==> 0 <= 6 * q <= a < 6 * q + 6
    ensures a < 0 ==> 6 * q - 6 < a <= 6 * q <= 0
  {
    if a >= 0 then a / 6 else -((-a) / 6)
  }

  /** titleTokens.Contains as a test on a listed word. */
  function OccursIn(tokens: seq<string>): string -> bool {
    w => w in tokens
  }

  /** How many of the listed words occur among the tokens (each word counts
      once, however often it occurs). */
  function WordsPresent(words: seq<string>, tokens: seq<string>): (n: nat)
    ensures n <= |words|
  {
    |Filter(words, OccursIn(tokens))|
  }

  /** No listed word among the tokens, no score; a listed word among them,
      a positive count. */
  lemma WordsPresentZero(words: seq<string>, tokens: seq<string>)
    ensures WordsPresent(words, tokens) == 0 <==> forall w :: w in words ==> w !in tokens
  {
    forall w
      ensures w in Filter(words, OccursIn(tokens)) <==> w in words && w in tokens
    {
      FilterMembership(words, OccursIn(tokens), w);
    }
    var present := Filter(words, OccursIn(tokens));
    if present != [] {
      assert present[0] in present;
    }
  }

  function IsWith(t: string): bool { t == "with" }
  function IsFor(t: string): bool { t == "for" }

  /** 100 when the last "with" follows the first token and comes straight
      after "camera". */
  function CameraWithScore(tokens: seq<string>): (r: int)
    ensures r == 0 || r == PhraseWeight
  {
    var w := LastIndex(tokens, IsWith);
    if w > 0 && tokens[w - 1] == "camera" then PhraseWeight else 0
  }

  /** -100 when the last "for" follows the first token. */
  function ForScore(tokens: seq<string>): (r: int)
    ensures r == 0 || r == -PhraseWeight
  {
    if LastIndex(tokens, IsFor) > 0 then -PhraseWeight else 0
  }

  /** -100 when the last "for" follows the first token and comes before
      the last "with". */
  function ForThenWithScore(tokens: seq<string>): (r: int)
    ensures r == 0 || r == -PhraseWeight
  {
    var f, w := LastIndex(tokens, IsFor), LastIndex(tokens, IsWith);
    if f > 0 && w > 0 && f < w then -PhraseWeight else 0
  }

  /** The combined isCameraScore, from the price score and the two word
      scores; the phrase scores are read off the tokens. */
  function IsCameraScore(lowCostScore: real, accessoryWordsScore: int, cameraWordsScore: int, tokens: seq<string>): real {
    100.0
      + lowCostScore / 6.0
      + Sixth(accessoryWordsScore) as real
      + Sixth(cameraWordsScore) as real
      + Sixth(CameraWithScore(tokens)) as real
      + Sixth(ForScore(tokens)) as real
      + Sixth(ForThenWithScore(tokens)) as real
  }

  /** Without a "with" token neither phrase that needs one scores, and
      without a "for" token neither phrase that needs one scores. */
  lemma AbsentPhraseWords(tokens: seq<string>)
    ensures "with" !in tokens ==> CameraWithScore(tokens) == 0 && ForThenWithScore(tokens) == 0
    ensures "for" !in tokens ==> ForScore(tokens) == 0 && ForThenWithScore(tokens) == 0
  {
    NotFound(tokens, IsWith);
    NotFound(tokens, IsFor);
  }

  /** A title with none of the listed words and neither "with" nor "for"
      scores 100 plus a sixth of its price score. */
  lemma NoListedWords(lowCostScore: real, accessoryWords: seq<string>, cameraWords: seq<string>, tokens: seq<string>)
    requires forall w :: w in accessoryWords ==> w !in tokens
    requires forall w :: w in cameraWords ==> w !in tokens
    requires "with" !in tokens && "for" !in tokens
    ensures IsCameraScore(lowCostScore,
      NonCameraWordWeight * WordsPresent(accessoryWords, tokens),
      CameraWordWeight * WordsPresent(cameraWords, tokens),
      tokens) == 100.0 + lowCostScore / 6.0
  {
    WordsPresentZero(accessoryWords, tokens);
    WordsPresentZero(cameraWords, tokens);
    AbsentPhraseWords(tokens);
  }

  /** A "for" after the first token always costs the for-phrase score. */
  lemma ForAfterFirstToken(tokens: seq<string>, i: nat)
    requires 0 < i < |tokens| && tokens[i] == "for"
    ensures ForScore(tokens) == -PhraseWeight
  {
    assert IsFor(tokens[i]);
  }

  /** "camera with" at positions i - 1 and i, with no "with" after it, earns
      the camera-with score. */
  lemma CameraWithAt(tokens: seq<string>, i: nat)
    requires 0 < i < |tokens| && tokens[i - 1] == "camera" && tokens[i] == "with"
    requires forall j :: i < j < |tokens| ==> tokens[j] != "with"
    ensures CameraWithScore(tokens) == PhraseWeight
  {
    assert IsWith(tokens[i]);
  }
}
