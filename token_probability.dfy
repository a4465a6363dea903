/**
 * Per-document token rates over a collection of documents
 * (Pipeline/Analysis/TokenProbabilityCalculator.cs). The source divides
 * in single-precision floating point; the model divides exactly.
 */
module TokenProbability {
  import opened Chars
  import opened StringExtensions
  import opened DictionaryExtensions
  import opened WordFrequency

  /** Each token's total occurrence count divided by the number of documents. */
  function Probabilities(docs: seq<string>): map<string, real> {
    var counts := Tally(AllTokens(docs));
    map k | k in counts :: counts[k] as real / |docs| as real
  }

  /** GetProbabilities: the counting loop over documents and tokens,
      then the division of every count by numDocs. */
  method GetProbabilities(docs: seq<string>) returns (probs: map<string, real>)
    ensures probs == Probabilities(docs)
  {
    var freq := new CountTable<string>();
    var numDocs := 0;
    var i := 0;
    while i < |docs|
      invariant 0 <= i <= |docs|
      invariant numDocs == i
      invariant freq.counts == Tally(AllTokens(docs[..i]))
    {
      CountDocument(freq, AllTokens(docs[..i]), docs[i]);
      AllTokensPrefix(docs, i);
      numDocs := numDocs + 1;
      i := i + 1;
    }
    assert docs[..i] == docs;
    var counts := freq.counts;
    probs := map k | k in counts :: counts[k] as real / numDocs as real;
  }

  /** The keys are exactly the tokens that occur in some document. */
  lemma ProbabilityKeys(docs: seq<string>, t: string)
    ensures t in Probabilities(docs) <==> exists i :: 0 <= i < |docs| && t in TokenizeOnWhiteSpace(docs[i])
  {
    WordFrequencyCounts(docs, t);
  }

  /**
   * Each value is the token's occurrence count, repeats included, over the
   * number of documents: always positive, and above 1 when the token occurs
   * more often than there are documents.
   */
  lemma ProbabilityValue(docs: seq<string>, t: string)
    requires t in Probabilities(docs)
    ensures |docs| > 0
    ensures Probabilities(docs)[t] == multiset(AllTokens(docs))[t] as real / |docs| as real
    ensures Probabilities(docs)[t] > 0.0
  {
    var counts := Tally(AllTokens(docs));
    assert t in counts;
    TallyCounts(AllTokens(docs));
    assert t in AllTokens(docs);
    PositiveRatio(counts[t], |docs|);
  }

  lemma PositiveRatio(a: int, b: int)
    requires a >= 1 && b >= 1
    ensures a as real / b as real > 0.0
  {
  }

  /** A token repeated within one document has a rate above 1: the single
      document "A A" gives "A" the value 2. */
  lemma RepeatsCanExceedOne(docs: seq<string>, a: string)
    requires a == "A"
    requires docs == [Join([a, a], ' ')]
    ensures a in Probabilities(docs) && Probabilities(docs)[a] == 2.0
  {
    assert NoSeparator(a, IsWhiteSpace);
    SplitJoin([a, a], ' ', IsWhiteSpace);
    AllTokensSnoc([], docs[0]);
    assert [] + [docs[0]] == docs;
    assert AllTokens(docs) == [a, a];
    TallyCounts([a, a]);
    assert multiset([a, a])[a] == 2;
  }
  /** A title made of separator-free letters joined by single spaces has
      those letters as its tokens. */
  lemma LetterTitleTokens(title: string, ts: seq<string>)
    requires |ts| >= 1 && forall i :: 0 <= i < |ts| ==> |ts[i]| == 1 && 'A' <= ts[i][0] <= 'Z'
    requires title == Join(ts, ' ')
    ensures TokenizeOnWhiteSpace(title) == ts
  {
    forall i | 0 <= i < |ts|
      ensures NoSeparator(ts[i], IsWhiteSpace)
    {
      assert !IsWhiteSpace(ts[i][0]);
    }
    SplitJoin(ts, ' ', IsWhiteSpace);
  }

  /** The seven test titles, as token lists: their tokens in document order. */
  lemma SevenTitlesTokens(docs: seq<string>, six: seq<string>, four: seq<string>, two: seq<string>)
    requires six == ["A", "B", "C", "D", "E", "F"] && four == ["A", "B", "C", "D"] && two == ["A", "B"]
    requires docs == [Join(six, ' '), Join(six, ' '), Join(four, ' '), Join(four, ' '),
      Join(two, ' '), Join(two, ' '), ""]
    ensures AllTokens(docs) == six + six + four + four + two + two + [""]
  {
    LetterTitleTokens(docs[0], six);
    LetterTitleTokens(docs[2], four);
    LetterTitleTokens(docs[4], two);
    assert TokenizeOnWhiteSpace(docs[6]) == [""];
    SevenDocumentsTokens(docs, [six, six, four, four, two, two, [""]]);
  }

  /** The tokens of seven documents are theirs, one document after the other. */
  lemma SevenDocumentsTokens(docs: seq<string>, ts: seq<seq<string>>)
    requires |docs| == 7 && |ts| == 7
    requires forall i :: 0 <= i < 7 ==> TokenizeOnWhiteSpace(docs[i]) == ts[i]
    ensures AllTokens(docs) == ts[0] + ts[1] + ts[2] + ts[3] + ts[4] + ts[5] + ts[6]
  {
    assert docs[..0] == [];
    AllTokensPrefix(docs, 0);
    var a := ts[0];
    assert AllTokens(docs[..1]) == a;
    AllTokensPrefix(docs, 1);
    a := a + ts[1];
    assert AllTokens(docs[..2]) == a;
    AllTokensPrefix(docs, 2);
    a := a + ts[2];
    assert AllTokens(docs[..3]) == a;
    AllTokensPrefix(docs, 3);
    a := a + ts[3];
    assert AllTokens(docs[..4]) == a;
    AllTokensPrefix(docs, 4);
    a := a + ts[4];
    assert AllTokens(docs[..5]) == a;
    AllTokensPrefix(docs, 5);
    a := a + ts[5];
    assert AllTokens(docs[..6]) == a;
    AllTokensPrefix(docs, 6);
    a := a + ts[6];
    assert AllTokens(docs[..7]) == a;
    assert docs[..7] == docs;
  }

  /** How often A, F and G occur among those tokens. */
  lemma SevenTitlesCounts(six: seq<string>, four: seq<string>, two: seq<string>)
    requires six == ["A", "B", "C", "D", "E", "F"] && four == ["A", "B", "C", "D"] && two == ["A", "B"]
    ensures var all := six + six + four + four + two + two + [""];
      multiset(all)["A"] == 6 && multiset(all)["F"] == 2 && "G" !in all
  {
    var all := six + six + four + four + two + two + [""];
    assert multiset(six)["A"] == 1 && multiset(four)["A"] == 1 && multiset(two)["A"] == 1;
    assert multiset(six)["F"] == 1 && multiset(four)["F"] == 0 && multiset(two)["F"] == 0;
    assert multiset(all) == multiset(six) + multiset(six) + multiset(four) + multiset(four)
      + multiset(two) + multiset(two) + multiset{""};
    assert "G" !in six && "G" !in four && "G" !in two;
  }

  /** The rates that follow from those counts over seven documents. */
  lemma SevenTitlesRates(docs: seq<string>)
    requires |docs| == 7
    requires multiset(AllTokens(docs))["A"] == 6 && multiset(AllTokens(docs))["F"] == 2 && "G" !in AllTokens(docs)
    ensures "A" in Probabilities(docs) && Probabilities(docs)["A"] == 6 as real / 7 as real
    ensures "F" in Probabilities(docs) && Probabilities(docs)["F"] == 2 as real / 7 as real
    ensures "G" !in Probabilities(docs)
  {
    RateOf(docs, "A", 6, 7);
    RateOf(docs, "F", 2, 7);
    ProbabilityKeys(docs, "G");
    AllTokensMembership(docs, "G");
  }

  /** A token's rate from its count and the number of documents. */
  lemma RateOf(docs: seq<string>, t: string, n: int, d: int)
    requires multiset(AllTokens(docs))[t] == n && |docs| == d && n >= 1
    ensures t in Probabilities(docs) && Probabilities(docs)[t] == n as real / d as real
  {
    TallyCounts(AllTokens(docs));
  }

  /**
   * TokenProbabilityCalculatorTests: over the seven titles "A B C D E F"
   * twice, "A B C D" twice, "A B" twice and "", A has the rate 6/7, F the
   * rate 2/7, and G, which occurs nowhere, is not a key.
   */
  lemma SevenTitlesExample(docs: seq<string>, six: seq<string>, four: seq<string>, two: seq<string>)
    requires six == ["A", "B", "C", "D", "E", "F"] && four == ["A", "B", "C", "D"] && two == ["A", "B"]
    requires docs == [Join(six, ' '), Join(six, ' '), Join(four, ' '), Join(four, ' '),
      Join(two, ' '), Join(two, ' '), ""]
    ensures "A" in Probabilities(docs) && Probabilities(docs)["A"] == 6 as real / 7 as real
    ensures "F" in Probabilities(docs) && Probabilities(docs)["F"] == 2 as real / 7 as real
    ensures "G" !in Probabilities(docs)
  {
    SevenTitlesTokens(docs, six, four, two);
    SevenTitlesCounts(six, four, two);
    SevenTitlesRates(docs);
  }
}
