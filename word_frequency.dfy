/**
 * Token counts over a collection of documents
 * (Pipeline/Analysis/WordFrequencyCalculator.cs).
 */
module WordFrequency {
  import opened StringExtensions
  import opened DictionaryExtensions

  /** The white-space tokens of every document, document by document. */
  function AllTokens(docs: seq<string>): seq<string> {
    if docs == [] then []
    else AllTokens(docs[..|docs| - 1]) + TokenizeOnWhiteSpace(docs[|docs| - 1])
  }

  /** A token occurs in the collection exactly when it is a token of some document. */
  lemma {:induction false} AllTokensMembership(docs: seq<string>, t: string)
    ensures t in AllTokens(docs) <==> exists i :: 0 <= i < |docs| && t in TokenizeOnWhiteSpace(docs[i])
  {
    if docs != [] {
      var docs' := docs[..|docs| - 1];
      AllTokensMembership(docs', t);
      if exists i :: 0 <= i < |docs'| && t in TokenizeOnWhiteSpace(docs'[i]) {
        var i :| 0 <= i < |docs'| && t in TokenizeOnWhiteSpace(docs'[i]);
        assert docs[i] == docs'[i];
      }
      if exists i :: 0 <= i < |docs| && t in TokenizeOnWhiteSpace(docs[i]) {
        var i :| 0 <= i < |docs| && t in TokenizeOnWhiteSpace(docs[i]);
        if i < |docs'| {
          assert docs'[i] == docs[i];
        }
      }
    }
  }

  lemma AllTokensSnoc(docs: seq<string>, d: string)
    ensures AllTokens(docs + [d]) == AllTokens(docs) + TokenizeOnWhiteSpace(d)
  {
    assert (docs + [d])[..|docs|] == docs;
  }

  lemma AllTokensPrefix(docs: seq<string>, i: nat)
    requires i < |docs|
    ensures AllTokens(docs[..i + 1]) == AllTokens(docs[..i]) + TokenizeOnWhiteSpace(docs[i])
  {
    assert docs[..i + 1] == docs[..i] + [docs[i]];
    AllTokensSnoc(docs[..i], docs[i]);
  }

  lemma TallyPrefix(before: seq<string>, tokens: seq<string>, j: nat)
    requires j < |tokens|
    ensures Tally(before + tokens[..j + 1]) == Incremented(Tally(before + tokens[..j]), tokens[j])
  {
    TallyAppend(before + tokens[..j], tokens[j]);
    assert before + tokens[..j] + [tokens[j]] == before + tokens[..j + 1];
  }

  /** The inner loop: AddOrIncrement for every token of one document, which
      extends the tally of the tokens counted before. */
  method CountDocument(table: CountTable<string>, ghost before: seq<string>, doc: string)
    requires table.counts == Tally(before)
    modifies table
    ensures table.counts == Tally(before + TokenizeOnWhiteSpace(doc))
  {
    var tokens := TokenizeOnWhiteSpace(doc);
    var j := 0;
    assert before + tokens[..j] == before;
    while j < |tokens|
      invariant 0 <= j <= |tokens|
      invariant table.counts == Tally(before + tokens[..j])
    {
      TallyPrefix(before, tokens, j);
      table.AddOrIncrement(tokens[j]);
      j := j + 1;
    }
    assert tokens[..j] == tokens;
  }

  /** GetWordFrequency: AddOrIncrement for every token of every document. */
  method GetWordFrequency(docs: seq<string>) returns (freq: map<string, int>)
    ensures freq == Tally(AllTokens(docs))
  {
    var table := new CountTable<string>();
    var i := 0;
    while i < |docs|
      invariant 0 <= i <= |docs|
      invariant table.counts == Tally(AllTokens(docs[..i]))
    {
      CountDocument(table, AllTokens(docs[..i]), docs[i]);
      AllTokensPrefix(docs, i);
      i := i + 1;
    }
    assert docs[..i] == docs;
    freq := table.counts;
  }

  /**
   * The frequency map counts every token occurrence in every document:
   * its keys are exactly the tokens that occur, each value is the number
   * of occurrences (repeats included), so at least 1, and no documents
   * give the empty map.
   */
  lemma WordFrequencyCounts(docs: seq<string>, t: string)
    ensures t in Tally(AllTokens(docs)) <==> exists i :: 0 <= i < |docs| && t in TokenizeOnWhiteSpace(docs[i])
    ensures t in Tally(AllTokens(docs)) ==> Tally(AllTokens(docs))[t] == multiset(AllTokens(docs))[t] >= 1
    ensures docs == [] ==> Tally(AllTokens(docs)) == map[]
  {
    TallyCounts(AllTokens(docs));
    AllTokensMembership(docs, t);
  }

  /** A document with no text still contributes one token, the empty string. */
  lemma EmptyDocumentCountsOnce(docs: seq<string>)
    ensures multiset(AllTokens(docs + [""]))[""] == multiset(AllTokens(docs))[""] + 1
  {
    AllTokensSnoc(docs, "");
    assert TokenizeOnWhiteSpace("") == [""];
  }
}
