/**
 * Matching the listings of one manufacturer block to the products of the
 * same manufacturer (Pipeline/Matching/ProductModelMatcher.cs): every
 * listing goes to the best scoring feasible product or to the unmatched
 * list. Products are identified by their index in the block, as the
 * source's Dictionary<Product, List<Listing>> identifies them by
 * reference.
 */
module ProductModelMatcher {
  import opened Outcomes
  import opened Seqs
  import opened Chars
  import opened Domain
  import opened StringExtensions
  import opened StringArrayExtensions
  import opened DictionaryExtensions
  import opened Grouping
  import opened ProductsBlockGrouper
  import opened ListingsBlockGrouper

  /** IEnumerable<int>.CalculateEntropy(total): a floating point sum of
      p log2 p, left as a parameter of the model. */
  type Entropy = (seq<int>, int) -> real

  /** float.MinValue, the score before any candidate is taken. */
  const FloatMinValue: real := -340282346638528859811704183484516925440.0

  function Max(a: int, b: int): int { if a < b then b else a }

  function Min(a: int, b: int): int { if a < b then a else b }

  // ---------------------------------------------------------------------
  // The character check
  // ---------------------------------------------------------------------

  function NotWhiteSpace(c: char): bool { !IsWhiteSpace(c) }

  /** The fragments hold, with multiplicity, every character of required
      other than whitespace. An empty required string is always made. */
  predicate CanMake(required: string, fragments: seq<string>) {
    multiset(Filter(required, NotWhiteSpace)) <= multiset(Concat(fragments))
  }

  /** A counter map read with a missing key as zero. */
  function Count(m: map<char, int>, c: char): int {
    if c in m then m[c] else 0
  }

  /** The characters kept from a prefix are among those kept from the whole. */
  lemma FilterPrefixMultiset(s: string, n: nat)
    requires n <= |s|
    ensures multiset(Filter(s[..n], NotWhiteSpace)) <= multiset(Filter(s, NotWhiteSpace))
  {
    assert s == s[..n] + s[n..];
    FilterAppend(s[..n], s[n..], NotWhiteSpace);
  }

  /** The counters hold exactly the multiplicities of counted. */
  predicate Counts(m: map<char, int>, counted: multiset<char>) {
    forall c :: Count(m, c) == counted[c]
  }

  /** Counting one more character: fragmentChars[c]++, or Add(c, 1). */
  lemma CountOne(m: map<char, int>, counted: multiset<char>, c: char)
    requires Counts(m, counted)
    ensures Counts(if c in m then m[c := m[c] + 1] else m[c := 1], counted + multiset{c})
  {
  }

  /** The counters are what is left of the available characters once the
      spent ones are taken out. */
  predicate Accounts(m: map<char, int>, spent: multiset<char>, available: multiset<char>) {
    forall c :: 0 <= Count(m, c) && Count(m, c) + spent[c] == available[c]
  }

  /** Spending a character with a positive counter: fragmentChars[c]--. */
  lemma SpendOne(m: map<char, int>, spent: multiset<char>, available: multiset<char>, c: char)
    requires Accounts(m, spent, available) && c in m && m[c] > 0
    ensures Accounts(m[c := m[c] - 1], spent + multiset{c}, available)
  {
    var m', spent' := m[c := m[c] - 1], spent + multiset{c};
    forall d ensures 0 <= Count(m', d) && Count(m', d) + spent'[d] == available[d] {
      assert Count(m, d) + spent[d] == available[d];
    }
  }

  /** A character whose counter is used up is one too many. */
  lemma CannotSpend(m: map<char, int>, spent: multiset<char>, available: multiset<char>, c: char)
    requires Accounts(m, spent, available) && !(c in m && m[c] > 0)
    ensures !(spent + multiset{c} <= available)
  {
    assert (spent + multiset{c})[c] > available[c];
  }

  /** The first loop of CheckMatchesHaveCharsToMakeString: the fragmentChars
      counters, one per character of the fragments. */
  method CountFragmentChars(fragments: seq<string>) returns (fragmentChars: map<char, int>)
    ensures forall c :: Count(fragmentChars, c) == multiset(Concat(fragments))[c]
  {
    fragmentChars := map[];
    for i := 0 to |fragments|
      invariant Counts(fragmentChars, multiset(Concat(fragments[..i])))
    {
      var fragment := fragments[i];
      TakeSnoc(fragments, i);
      ConcatAppend(fragments[..i], [fragment]);
      ghost var before := multiset(Concat(fragments[..i]));
      for k := 0 to |fragment|
        invariant Counts(fragmentChars, before + multiset(fragment[..k]))
      {
        var c := fragment[k];
        TakeSnoc(fragment, k);
        CountOne(fragmentChars, before + multiset(fragment[..k]), c);
        if c in fragmentChars {
          fragmentChars := fragmentChars[c := fragmentChars[c] + 1];
        } else {
          fragmentChars := fragmentChars[c := 1];
        }
      }
      assert fragment[..|fragment|] == fragment;
    }
    assert fragments[..|fragments|] == fragments;
  }

  /**
   * CheckMatchesHaveCharsToMakeString: count the characters of the
   * fragments, then spend one count per non-whitespace character of
   * required, failing on the first character whose count is used up.
   */
  method CheckMatchesHaveCharsToMakeString(required: string, fragments: seq<string>) returns (ok: bool)
    ensures ok == CanMake(required, fragments)
  {
    if required == "" {
      return true;
    }
    var fragmentChars := CountFragmentChars(fragments);
    ghost var available := multiset(Concat(fragments));
    ghost var spent: multiset<char> := multiset{};
    for k := 0 to |required|
      invariant spent == multiset(Filter(required[..k], NotWhiteSpace))
      invariant Accounts(fragmentChars, spent, available)
    {
      var c := required[k];
      KeptStep(required, k);
      if IsWhiteSpace(c) {
        continue;
      }
      if c !in fragmentChars || fragmentChars[c] <= 0 {
        CannotSpend(fragmentChars, spent, available, c);
        FilterPrefixMultiset(required, k + 1);
        return false;
      }
      SpendOne(fragmentChars, spent, available, c);
      fragmentChars := fragmentChars[c := fragmentChars[c] - 1];
      spent := spent + multiset{c};
    }
    assert required[..|required|] == required;
    assert spent <= available;
    return true;
  }

  /** One more character of required adds itself to the kept characters
      unless it is whitespace. */
  lemma KeptStep(s: string, k: nat)
    requires k < |s|
    ensures multiset(Filter(s[..k + 1], NotWhiteSpace))
         == multiset(Filter(s[..k], NotWhiteSpace)) + if IsWhiteSpace(s[k]) then multiset{} else multiset{s[k]}
  {
    TakeSnoc(s, k);
    FilterSnoc(s[..k], s[k], NotWhiteSpace);
  }

  /** A non-whitespace character of required that no fragment holds makes
      the check fail. */
  lemma MissingCharFails(required: string, fragments: seq<string>, k: nat)
    requires k < |required| && !IsWhiteSpace(required[k])
    requires forall i :: 0 <= i < |fragments| ==> required[k] !in fragments[i]
    ensures !CanMake(required, fragments)
  {
    FilterMembership(required, NotWhiteSpace, required[k]);
    ConcatMembership(fragments, required[k]);
    assert multiset(Filter(required, NotWhiteSpace))[required[k]] > 0;
  }

  /** Dropping the whitespace of a string leaves the concatenation of its
      whitespace-separated tokens. */
  lemma {:induction false} WithoutWhiteSpaceIsTokens(s: string)
    ensures Filter(s, NotWhiteSpace) == Concat(TokenizeOnWhiteSpace(s))
  {
    if s != [] {
      var ts := Split(s[1..], IsWhiteSpace);
      WithoutWhiteSpaceIsTokens(s[1..]);
      assert [s[0]] + s[1..] == s;
      FilterCons(s[0], s[1..], NotWhiteSpace);
      SplitCons(s[0], s[1..], IsWhiteSpace);
      if IsWhiteSpace(s[0]) {
        assert PushFront(s[0], IsWhiteSpace, ts) == [""] + ts;
        assert Concat([""] + ts) == Concat(ts) by {
          assert ([""] + ts)[1..] == ts;
        }
      } else {
        var ps := PushFront(s[0], IsWhiteSpace, ts);
        assert ps == [[s[0]] + ts[0]] + ts[1..];
        assert ps[1..] == ts[1..];
        assert Concat(ts) == ts[0] + Concat(ts[1..]);
      }
    }
  }

  /** A string can always be made from its own tokens. */
  lemma CanMakeFromOwnTokens(s: string)
    ensures CanMake(s, TokenizeOnWhiteSpace(s))
  {
    WithoutWhiteSpaceIsTokens(s);
  }

  /** ProductModelMatcherTests, three-part model: the listing
      "olympus pen e pl 1 ..." shares the n-grams "pen", "e" and "pene"
      with the model "pen e pl2", which has a '2' none of them holds. */
  lemma ThreePartModelExample(model: string, fragments: seq<string>)
    requires model == "pen e pl2" && fragments == ["pen", "e", "pene"]
    ensures !CanMake(model, fragments)
  {
    MissingCharFails(model, fragments, 8);
  }

  /** ProductModelMatcherTests, number then letters: of the model
      "130 is" the listing "canon powershot sx130 is silver" shares only
      the n-gram "is", which lacks the '1'. */
  lemma NumberThenLettersExample(model: string, fragments: seq<string>)
    requires model == "130 is" && fragments == ["is"]
    ensures !CanMake(model, fragments)
  {
    MissingCharFails(model, fragments, 0);
  }

  // ---------------------------------------------------------------------
  // Preparing products and listings
  // ---------------------------------------------------------------------

  /** A product with its model and family n-grams (the `products` tuples). */
  datatype Candidate = Candidate(product: Product, modelNGrams: seq<string>, familyNGrams: seq<string>)

  /** The family as the checks read it; a missing family reads as empty. */
  function FamilyText(p: Product): string {
    if p.family.Some? then p.family.value else ""
  }

  /** Model n-grams: shingles of 1 up to max(token count, 3) model tokens. */
  function ModelNGrams(p: Product): seq<string> {
    var mt := TokenizeOnWhiteSpace(p.model);
    ShinglesRange(mt, 1, Max(|mt|, 3))
  }

  /** Family n-grams: shingles of the family tokens, none for an empty
      family, with the upper size taken from the MODEL's token count. */
  function FamilyNGrams(p: Product): seq<string> {
    var mt := TokenizeOnWhiteSpace(p.model);
    var ft := if FamilyText(p) != "" then TokenizeOnWhiteSpace(FamilyText(p)) else [];
    ShinglesRange(ft, 1, Max(|mt|, 3))
  }

  function Candidates(ps: seq<Product>): (cs: seq<Candidate>)
    ensures |cs| == |ps|
  {
    if ps == [] then []
    else
      var p := ps[|ps| - 1];
      Candidates(ps[..|ps| - 1]) + [Candidate(p, ModelNGrams(p), FamilyNGrams(p))]
  }

  /** The first loop: tokenize and shingle every product. */
  method PrepareProducts(ps: seq<Product>) returns (cs: seq<Candidate>)
    ensures cs == Candidates(ps)
  {
    cs := [];
    for i := 0 to |ps|
      invariant cs == Candidates(ps[..i])
    {
      var product := ps[i];
      TakeSnoc(ps, i);
      assert (ps[..i] + [product])[..i] == ps[..i];
      var modelTokens := TokenizeOnWhiteSpace(product.model);
      var modelNGrams := CreateNShinglesRange(modelTokens, 1, Max(|modelTokens|, 3));
      var familyTokens := if product.family.Some? && product.family.value != "" then TokenizeOnWhiteSpace(product.family.value) else [];
      var familyNGrams := CreateNShinglesRange(familyTokens, 1, Max(|modelTokens|, 3));
      cs := cs + [Candidate(product, modelNGrams, familyNGrams)];
    }
    assert ps[..|ps|] == ps;
  }

  /** Title n-grams: shingles of 1 up to min(token count, 3) title tokens. */
  function TitleNGrams(l: Listing): seq<string> {
    var ts := TokenizeOnWhiteSpace(l.title);
    ShinglesRange(ts, 1, Min(|ts|, 3))
  }

  /** The title n-grams of all listings, listing after listing. */
  function AllTitleNGrams(ls: seq<Listing>): seq<string> {
    if ls == [] then [] else AllTitleNGrams(ls[..|ls| - 1]) + TitleNGrams(ls[|ls| - 1])
  }

  /** One more listing adds its title n-grams at the end. */
  lemma AllTitleNGramsStep(ls: seq<Listing>, i: nat)
    requires i < |ls|
    ensures AllTitleNGrams(ls[..i + 1]) == AllTitleNGrams(ls[..i]) + TitleNGrams(ls[i])
  {
    assert ls[..i + 1][..i] == ls[..i];
  }

  /** tokenCount: AddOrIncrement of every title n-gram of the block. */
  function TokenCount(ls: seq<Listing>): map<string, int> {
    Tally(AllTitleNGrams(ls))
  }

  /** One pass of the second loop: shingle the title of one listing and
      AddOrIncrement each of its n-grams, which extends the tally of the
      n-grams counted before. */
  method CountTitle(counter: CountTable<string>, ghost before: seq<string>, listing: Listing) returns (ngrams: seq<string>)
    requires counter.counts == Tally(before)
    modifies counter
    ensures ngrams == TitleNGrams(listing)
    ensures counter.counts == Tally(before + ngrams)
  {
    var tokens := TokenizeOnWhiteSpace(listing.title);
    ngrams := CreateNShinglesRange(tokens, 1, Min(|tokens|, 3));
    assert before + ngrams[..0] == before;
    for k := 0 to |ngrams|
      invariant counter.counts == Tally(before + ngrams[..k])
    {
      TakeSnoc(ngrams, k);
      assert before + ngrams[..k + 1] == (before + ngrams[..k]) + [ngrams[k]];
      TallyAppend(before + ngrams[..k], ngrams[k]);
      counter.AddOrIncrement(ngrams[k]);
    }
    assert ngrams[..|ngrams|] == ngrams;
  }

  /** titles holds the title n-grams of the first n listings. */
  predicate TitlesOf(titles: seq<seq<string>>, ls: seq<Listing>, n: nat) {
    n <= |ls| && |titles| == n && forall j :: 0 <= j < n ==> titles[j] == TitleNGrams(ls[j])
  }

  lemma TitlesOfStep(titles: seq<seq<string>>, ls: seq<Listing>, n: nat, ngrams: seq<string>)
    requires TitlesOf(titles, ls, n) && n < |ls| && ngrams == TitleNGrams(ls[n])
    ensures TitlesOf(titles + [ngrams], ls, n + 1)
  {
  }

  /** The second loop: shingle every title and count the n-grams. */
  method PrepareListings(ls: seq<Listing>) returns (titles: seq<seq<string>>, tokenCount: map<string, int>)
    ensures |titles| == |ls| && forall i :: 0 <= i < |ls| ==> titles[i] == TitleNGrams(ls[i])
    ensures tokenCount == TokenCount(ls)
  {
    var counter := new CountTable<string>();
    titles := [];
    for i := 0 to |ls|
      invariant TitlesOf(titles, ls, i)
      invariant counter.counts == Tally(AllTitleNGrams(ls[..i]))
    {
      AllTitleNGramsStep(ls, i);
      var ngrams := CountTitle(counter, AllTitleNGrams(ls[..i]), ls[i]);
      TitlesOfStep(titles, ls, i, ngrams);
      titles := titles + [ngrams];
    }
    assert ls[..|ls|] == ls;
    tokenCount := counter.counts;
  }

  /** Every title n-gram of the block is a key of the count, and its
      count is the number of its occurrences over all titles. */
  lemma {:induction false} TokenCountIsOccurrences(ls: seq<Listing>)
    ensures forall g :: g in TokenCount(ls) <==> exists i :: 0 <= i < |ls| && g in TitleNGrams(ls[i])
    ensures forall g :: g in TokenCount(ls) ==> TokenCount(ls)[g] == multiset(AllTitleNGrams(ls))[g] >= 1
  {
    TallyCounts(AllTitleNGrams(ls));
    forall g ensures g in AllTitleNGrams(ls) <==> exists i :: 0 <= i < |ls| && g in TitleNGrams(ls[i]) {
      AllTitleNGramsMembership(ls, g);
    }
  }

  lemma {:induction false} AllTitleNGramsMembership(ls: seq<Listing>, g: string)
    ensures g in AllTitleNGrams(ls) <==> exists i :: 0 <= i < |ls| && g in TitleNGrams(ls[i])
  {
    if ls != [] {
      var ls' := ls[..|ls| - 1];
      AllTitleNGramsMembership(ls', g);
      if g in AllTitleNGrams(ls) && g !in TitleNGrams(ls[|ls| - 1]) {
        var i :| 0 <= i < |ls'| && g in TitleNGrams(ls'[i]);
        assert ls'[i] == ls[i];
      }
      if exists i :: 0 <= i < |ls| && g in TitleNGrams(ls[i]) {
        var i :| 0 <= i < |ls| && g in TitleNGrams(ls[i]);
        if i < |ls'| {
          assert ls'[i] == ls[i];
        }
      }
    }
  }

  // ---------------------------------------------------------------------
  // Scoring one product against one listing
  // ---------------------------------------------------------------------

  /** The counting context of a block: tokenCount, totalTokens (the number
      of listings) and the entropy. */
  datatype Context = Context(counts: map<string, int>, total: int, entropy: Entropy)

  function ContextOf(ls: seq<Listing>, entropy: Entropy): Context {
    Context(TokenCount(ls), |ls|, entropy)
  }

  function In(wanted: seq<string>): string -> bool {
    g => g in wanted
  }

  function NotIn(unwanted: seq<string>): string -> bool {
    g => g !in unwanted
  }

  /** tokenCount[x] for each x in turn (every title n-gram is a key, see
      TokenCountIsOccurrences). */
  function Frequencies(counts: map<string, int>, gs: seq<string>): (r: seq<int>)
    ensures |r| == |gs|
  {
    if gs == [] then [] else [if gs[0] in counts then counts[gs[0]] else 0] + Frequencies(counts, gs[1..])
  }

  /** The title n-grams found among the model n-grams, in title order. */
  function ModelMatches(c: Candidate, title: seq<string>): seq<string> {
    Filter(title, In(c.modelNGrams))
  }

  /** The family n-grams that are not also model n-grams. */
  function FamilyOnly(c: Candidate): seq<string> {
    Filter(c.familyNGrams, NotIn(c.modelNGrams))
  }

  /** The title n-grams found among those family n-grams, in title order. */
  function FamilyMatches(c: Candidate, title: seq<string>): seq<string> {
    Filter(title, In(FamilyOnly(c)))
  }

  /** Model entropy plus family entropy. */
  function Score(c: Candidate, title: seq<string>, ctx: Context): real {
    ctx.entropy(Frequencies(ctx.counts, ModelMatches(c, title)), ctx.total)
      + ctx.entropy(Frequencies(ctx.counts, FamilyMatches(c, title)), ctx.total)
  }

  /** A product may take the listing: some model n-gram matched, the score
      is positive, the matched fragments can make the model, and, when a
      family n-gram matched, the family too. */
  predicate Feasible(c: Candidate, title: seq<string>, ctx: Context) {
    var fragments := ModelMatches(c, title) + FamilyMatches(c, title);
    && ModelMatches(c, title) != []
    && Score(c, title, ctx) > 0.0
    && CanMake(c.product.model, fragments)
    && (FamilyMatches(c, title) != [] ==> CanMake(FamilyText(c.product), fragments))
  }

  /** The score a product offers for the listing, if it may take it. */
  function Offer(c: Candidate, title: seq<string>, ctx: Context): Option<real> {
    if Feasible(c, title, ctx) then Some(Score(c, title, ctx)) else None
  }

  /** The offers of the candidates, in block order. */
  function Offers(cs: seq<Candidate>, title: seq<string>, ctx: Context): seq<Option<real>> {
    seq(|cs|, j requires 0 <= j < |cs| => Offer(cs[j], title, ctx))
  }

  /** The bestScore/bestMatch scan over offers: the offer taken, as
      (index, score); an offer replaces the best unless it is lower. */
  function Best(os: seq<Option<real>>): (r: Option<(nat, real)>)
    ensures r.Some? ==> r.value.0 < |os| && os[r.value.0] == Some(r.value.1)
  {
    if os == [] then None else Take(Best(os[..|os| - 1]), |os| - 1, os[|os| - 1])
  }

  /** One step of the scan: offer o of candidate j against the best so far. */
  function Take(best: Option<(nat, real)>, j: nat, o: Option<real>): Option<(nat, real)> {
    match o
    case None => best
    case Some(s) => if best.Some? && s < best.value.1 then best else Some((j, s))
  }

  lemma BestStep(os: seq<Option<real>>, j: nat)
    requires j < |os|
    ensures Best(os[..j + 1]) == Take(Best(os[..j]), j, os[j])
  {
    assert os[..j + 1][..j] == os[..j];
  }

  /**
   * The scan takes nothing exactly when nothing is offered; otherwise it
   * takes the maximum offer, and the last one among equal maxima: every
   * later offer is strictly lower.
   */
  lemma {:induction false} BestIsLastMaximum(os: seq<Option<real>>)
    ensures Best(os).None? <==> forall j :: 0 <= j < |os| ==> os[j].None?
    ensures Best(os).Some? ==>
      var (b, s) := Best(os).value;
      && (forall j :: 0 <= j < |os| && os[j].Some? ==> os[j].value <= s)
      && (forall j :: b < j < |os| && os[j].Some? ==> os[j].value < s)
  {
    if os != [] {
      var os' := os[..|os| - 1];
      BestIsLastMaximum(os');
      assert forall j :: 0 <= j < |os'| ==> os'[j] == os[j];
    }
  }

  /** The chosen product index for a title, if any. */
  function Choice(cs: seq<Candidate>, title: seq<string>, ctx: Context): (r: Option<nat>)
    ensures r.Some? ==> r.value < |cs|
  {
    match Best(Offers(cs, title, ctx))
    case None => None
    case Some((b, _)) => Some(b)
  }

  /**
   * One pass of the inner loop of FindProductMatches: skip a product with
   * no model match, a score below float.Epsilon or below the best so far,
   * or fragments that cannot make the model (or the matched family);
   * otherwise it is taken with its score.
   */
  method Consider(c: Candidate, title: seq<string>, ctx: Context, bestScore: real) returns (score: real, take: bool)
    ensures take <==> Offer(c, title, ctx).Some? && !(Offer(c, title, ctx).value < bestScore)
    ensures take ==> score == Offer(c, title, ctx).value
  {
    take := false;
    var modelMatches := ModelMatches(c, title);
    if modelMatches == [] {
      return 0.0, false;
    }
    var modelScore := ctx.entropy(Frequencies(ctx.counts, modelMatches), ctx.total);
    var familyMatches := FamilyMatches(c, title);
    var familyScore := ctx.entropy(Frequencies(ctx.counts, familyMatches), ctx.total);
    score := modelScore + familyScore;
    assert score == Score(c, title, ctx);
    if score <= 0.0 || score < bestScore {
      return score, false;
    }
    var ok := CheckMatchesHaveCharsToMakeString(c.product.model, modelMatches + familyMatches);
    if !ok {
      return score, false;
    }
    if familyMatches != [] {
      ok := CheckMatchesHaveCharsToMakeString(FamilyText(c.product), modelMatches + familyMatches);
      if !ok {
        return score, false;
      }
    }
    take := true;
  }

  /**
   * The inner loop of FindProductMatches for one listing: each product in
   * block order is considered against the best score so far, starting from
   * float.MinValue, and a product that is taken becomes the best.
   */
  method ChooseProduct(title: seq<string>, cs: seq<Candidate>, ctx: Context) returns (bestMatch: Option<nat>)
    ensures bestMatch == Choice(cs, title, ctx)
  {
    ghost var os := Offers(cs, title, ctx);
    var bestScore := FloatMinValue;
    bestMatch := None;
    for j := 0 to |cs|
      invariant Best(os[..j]) == if bestMatch.None? then None else Some((bestMatch.value, bestScore))
      invariant bestMatch.None? ==> bestScore == FloatMinValue
    {
      BestStep(os, j);
      var score, take := Consider(cs[j], title, ctx, bestScore);
      if take {
        bestScore := score;
        bestMatch := Some(j);
      }
    }
    assert os[..|os|] == os;
  }

  // ---------------------------------------------------------------------
  // The whole block
  // ---------------------------------------------------------------------

  /** The product index a listing is assigned to, if any. */
  function Assignment(cs: seq<Candidate>, ctx: Context, l: Listing): Option<nat> {
    Choice(cs, TitleNGrams(l), ctx)
  }

  function Assigner(cs: seq<Candidate>, ctx: Context): Listing -> Option<nat> {
    l => Assignment(cs, ctx, l)
  }

  /** productMatches as blocks keyed by product index, in order of first
      assignment. */
  function MatchedBlocks(ps: seq<Product>, ls: seq<Listing>, entropy: Entropy): seq<Block<nat, Listing>> {
    Blocks(ls, Assigner(Candidates(ps), ContextOf(ls, entropy)))
  }

  /** Every block is named by the index of a product of the block. */
  lemma MatchedBlocksKeys(ps: seq<Product>, ls: seq<Listing>, entropy: Entropy)
    ensures forall i :: 0 <= i < |MatchedBlocks(ps, ls, entropy)| ==> MatchedBlocks(ps, ls, entropy)[i].key < |ps|
  {
    var cs, ctx := Candidates(ps), ContextOf(ls, entropy);
    var below := (k: nat) => k < |ps|;
    assert forall x :: x in ls && Assigner(cs, ctx)(x).Some? ==> below(Assigner(cs, ctx)(x).value);
    BlockKeysCarried(ls, Assigner(cs, ctx), below);
  }

  /** The Select into ProductMatch: each block's product with its listings. */
  function ProductMatchesOf(ps: seq<Product>, bs: seq<Block<nat, Listing>>): seq<ProductMatch>
    requires forall i :: 0 <= i < |bs| ==> bs[i].key < |ps|
  {
    seq(|bs|, i requires 0 <= i < |bs| => ProductMatch(ps[bs[i].key], bs[i].members))
  }

  /** The ProductMatch list of a block. */
  function Matched(ps: seq<Product>, ls: seq<Listing>, entropy: Entropy): seq<ProductMatch> {
    MatchedBlocksKeys(ps, ls, entropy);
    ProductMatchesOf(ps, MatchedBlocks(ps, ls, entropy))
  }

  /** The listings no product takes, in block order. */
  function Unmatched(ps: seq<Product>, ls: seq<Listing>, entropy: Entropy): seq<Listing> {
    Unkeyed(ls, Assigner(Candidates(ps), ContextOf(ls, entropy)))
  }

  /**
   * FindProductMatches: prepare products and listings, choose a product
   * for every listing, and file it under that product or as unmatched.
   * Debug.Assert that both blocks name the same manufacturer is its
   * precondition.
   */
  method FindProductMatches(listingBlock: ListingsBlock, productBlock: ProductsBlock, entropy: Entropy)
    returns (matches: seq<ProductMatch>, unmatched: seq<Listing>)
    requires listingBlock.key == productBlock.key
    ensures matches == Matched(productBlock.members, listingBlock.members, entropy)
    ensures unmatched == Unmatched(productBlock.members, listingBlock.members, entropy)
  {
    var ps, ls := productBlock.members, listingBlock.members;
    var products := PrepareProducts(ps);
    var listings, tokenCount := PrepareListings(ls);
    var totalTokens := |ls|;
    var ctx := Context(tokenCount, totalTokens, entropy);
    ghost var key := Assigner(products, ctx);
    var productMatches := new BlockTable<nat, Listing>();
    unmatched := [];
    for i := 0 to |ls|
      invariant Tabulates(productMatches.order, productMatches.lists, ls[..i], key)
      invariant unmatched == Unkeyed(ls[..i], key)
    {
      var listing := ls[i];
      TakeSnoc(ls, i);
      ghost var order, lists := productMatches.order, productMatches.lists;
      var bestMatch := ChooseProduct(listings[i], products, ctx);
      if bestMatch.None? {
        unmatched := unmatched + [listing];
      } else {
        productMatches.Add(bestMatch.value, listing);
      }
      TabulatesSnoc(order, lists, ls[..i], listing, key, productMatches.order, productMatches.lists);
      FilterSnoc(ls[..i], listing, HasNoKey(key));
    }
    assert ls[..|ls|] == ls;
    TableBlocksAre(productMatches.lists, ls, key, productMatches.order);
    var bs := TableBlocks(productMatches.order, productMatches.lists);
    assert ctx == ContextOf(ls, entropy) && products == Candidates(ps);
    assert bs == MatchedBlocks(ps, ls, entropy);
    MatchedBlocksKeys(ps, ls, entropy);
    matches := ProductMatchesOf(ps, bs);
  }

  /**
   * Every listing lands in exactly one place: unmatched when no product
   * takes it, otherwise in the one match of the product it is assigned
   * to. Matches are for distinct products, none is empty, matches and the
   * unmatched list keep block order, and together they hold every listing.
   */
  lemma MatchPartition(ps: seq<Product>, ls: seq<Listing>, entropy: Entropy)
    ensures var assignment := Assigner(Candidates(ps), ContextOf(ls, entropy));
      var bs, um := MatchedBlocks(ps, ls, entropy), Unmatched(ps, ls, entropy);
      && (forall l :: l in um <==> l in ls && assignment(l).None?)
      && IsSubsequence(um, ls)
      && (forall i, j :: 0 <= i < j < |bs| ==> bs[i].key != bs[j].key)
      && (forall i :: 0 <= i < |bs| ==> bs[i].members != [] && IsSubsequence(bs[i].members, ls))
      && (forall i, l :: 0 <= i < |bs| ==> (l in bs[i].members <==> l in ls && assignment(l) == Some(bs[i].key)))
      && (forall l :: l in ls && assignment(l).Some? ==> exists i :: 0 <= i < |bs| && bs[i].key == assignment(l).value)
      && Size(bs) + |um| == |ls|
  {
    BlocksPartition(ls, Assigner(Candidates(ps), ContextOf(ls, entropy)));
  }

  /** Match i is the product of block i with the block's listings. */
  lemma MatchedAreBlocks(ps: seq<Product>, ls: seq<Listing>, entropy: Entropy)
    ensures var bs, ms := MatchedBlocks(ps, ls, entropy), Matched(ps, ls, entropy);
      && |ms| == |bs|
      && forall i :: 0 <= i < |bs| ==> bs[i].key < |ps| && ms[i] == ProductMatch(ps[bs[i].key], bs[i].members)
  {
    MatchedBlocksKeys(ps, ls, entropy);
  }

  /** What an offer guarantees: a title n-gram is one of the model
      n-grams, the score is positive, the fragments make the model and,
      when a family n-gram matched, the family. */
  lemma OfferIsFeasible(c: Candidate, title: seq<string>, ctx: Context)
    requires Offer(c, title, ctx).Some?
    ensures var fragments := ModelMatches(c, title) + FamilyMatches(c, title);
      && Offer(c, title, ctx).value == Score(c, title, ctx) > 0.0
      && (exists g :: g in title && g in c.modelNGrams)
      && CanMake(c.product.model, fragments)
      && (FamilyMatches(c, title) != [] ==> CanMake(FamilyText(c.product), fragments))
  {
    var g := ModelMatches(c, title)[0];
    FilterMembership(title, In(c.modelNGrams), g);
  }

  /**
   * A title is assigned to a product that offers for it; the offer is the
   * highest, and no later product offers as much.
   */
  lemma AssignedIsLastBestOffer(cs: seq<Candidate>, ctx: Context, title: seq<string>, j: nat)
    requires Choice(cs, title, ctx) == Some(j)
    ensures j < |cs|
    ensures var os := Offers(cs, title, ctx);
      && os[j].Some?
      && (forall k :: 0 <= k < |os| && os[k].Some? ==> os[k].value <= os[j].value)
      && (forall k :: j < k < |os| && os[k].Some? ==> os[k].value < os[j].value)
  {
    BestIsLastMaximum(Offers(cs, title, ctx));
  }

  /** A title is never assigned to a product none of whose model n-grams
      is among its n-grams. */
  lemma AssignedOnlyOnModelMatch(cs: seq<Candidate>, ctx: Context, title: seq<string>, j: nat)
    requires Choice(cs, title, ctx) == Some(j)
    ensures j < |cs| && exists g :: g in title && g in cs[j].modelNGrams
  {
    AssignedIsLastBestOffer(cs, ctx, title, j);
    assert Offers(cs, title, ctx)[j] == Offer(cs[j], title, ctx);
    OfferIsFeasible(cs[j], title, ctx);
  }

  /** A model of a single token has that token as its only n-gram. */
  lemma SingleTokenModel(p: Product)
    requires p.model != "" && NoSeparator(p.model, IsWhiteSpace)
    ensures ModelNGrams(p) == [p.model]
  {
    SplitWithoutSeparator(p.model, IsWhiteSpace);
    var ts := [p.model];
    assert Shingles(ts, 1) == [Concat(ts[..1])];
    assert Shingles(ts, 2) == [] && Shingles(ts, 3) == [];
    assert ShinglesRange(ts, 4, 3) == [];
  }

  /** ProductModelMatcherTests, model required for the join: with the
      product model "600", a listing none of whose title n-grams is "600"
      is not matched, whatever its family shares. */
  lemma ModelRequiredExample(p: Product, l: Listing, ctx: Context)
    requires p.model == "600"
    requires "600" !in TitleNGrams(l)
    ensures Assignment(Candidates([p]), ctx, l).None?
  {
    SingleTokenModel(p);
    var cs := Candidates([p]);
    assert cs[0].modelNGrams == ["600"];
    var a := Assignment(cs, ctx, l);
    if a.Some? {
      AssignedOnlyOnModelMatch(cs, ctx, TitleNGrams(l), a.value);
    }
  }
}
