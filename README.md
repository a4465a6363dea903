# RecordLinkagePipeline, modelled in Dafny

RecordLinkagePipeline links noisy retailer listings (a title, a
manufacturer, a currency and a price) to the products of a camera
catalogue. It reads both files record by record, normalises their text,
groups products and listings into blocks by manufacturer name, discovers
manufacturer aliases from listings that mention a catalogue model, matches
each listing to at most one product of its block by shared model n-grams,
and finally removes accessories and price outliers from each product's
listings.

This project models the core of that pipeline and proves what each step
promises. One Dafny module per source file, plus a few shared ones:

- `StringExtensions` (string_extensions.dfy): functions; white-space tokenising, character n-grams, uni/bi token shingles.
- `StringArrayExtensions` (string_array_extensions.dfy): methods with loops against shingle functions.
- `Munger`, `FieldMunger` (munger.dfy, field_munger.dfy): methods with the source's scanning loops against a collapse function.
- `DictionaryExtensions` (dictionary_extensions.dfy): the counter map as a class updated in place (`AddOrIncrement`), and the tally it builds.
- `ListExtensions` (list_extensions.dfy): `LastIndexWhere` as a loop against a last-index function.
- `WordFrequency`, `TokenProbability` (word_frequency.dfy, token_probability.dfy): counting loops against tallies over the tokens of all documents.
- `CanonicalNames` (canonical_names.dfy): the set of catalogue manufacturer names.
- `Grouping` (grouping.dfy): the dictionary of lists the groupers fill, as a class, and its partition properties.
- `ProductsBlockGrouper`, `ListingsBlockGrouper` (products_block_grouper.dfy, listings_block_grouper.dfy): blocking by manufacturer; the listing router's three rules.
- `SimilarityAlias` (similarity_alias.dfy): name similarity, the per-listing best-candidate scan and the per-pair totals of alias discovery.
- `ProductModelMatcher` (product_model_matcher.dfy): n-gram preparation, the character feasibility check, the best-product choice and the partition of a block.
- `Interquartile` (interquartile.dfy): the interquartile outlier band, read off the list as given.
- `ProductPriceOutlierClassifier`, `ProductMatchCostOutlierPruner` (price_outlier_classifier.dfy, cost_outlier_pruner.dfy): price conversion and filtering by the band.
- `CameraScoring`, `HeuristicClassifier`, `DeterministicClassifier` (camera_scoring.dfy, heuristic_classifier.dfy, deterministic_classifier.dfy): the rule-based camera scores with C#'s truncating integer division.
- `DeterministicAccessoryPruner` (accessory_pruner.dfy): dropping listings by title substring.
- `ListingParser` (listing_parser.dfy): the hand-rolled record splitter and its failure modes.
- `Chars`, `Seqs`, `Outcomes`, `Domain` (chars.dfy, seqs.dfy, outcomes.dfy, domain.dfy): character classes, sequence vocabulary, `Option`/`Result` with the .NET exceptions, and the records.

Conventions of the model:

- Exceptions the source can raise (an index out of range, a duplicate
  dictionary key, a null argument, a division by zero, a failed decimal
  parse) are `Err` values of a `Result`. Preconditions stand only for the
  source's own `Debug.Assert` checks on its callers.
- `decimal` is `real`; C#'s integer division, which rounds toward zero,
  is written out (`CameraScoring.Sixth`).
- The Unicode tables behind `Char.IsLetter`, `Char.IsNumber`,
  `Char.ToLower` and `ToUpperInvariant` are a `TextInfo` parameter, with an
  ASCII instance for the worked examples; `Char.IsWhiteSpace` is written
  out exactly.
- `Decimal.Parse`, `Environment.NewLine`, the matcher's entropy, the alias
  generator's model score and its percentile are parameters.
- Dictionary and HashSet enumeration follows first insertion.
- Products in the matcher are identified by their position in the block,
  as the source identifies them by reference.

Where the repository's own documentation describes the behaviour
differently, the model follows the code:

- splitting "" gives one empty token;
- the matcher keeps the last of several equally scoring products, because
  it replaces the best on `score < bestScore` failing;
- the classifiers compare 100 plus a sixth of each score with 90;
- token "probabilities" are occurrence counts over document counts and can
  exceed 1;
- the family n-gram sizes are bounded by the model's token count;
- the quartiles are read from the unsorted list;
- a comma inside a listing value shifts the parsed fields
  (`ListingParser.CommaInTitleShiftsFields`).

## Model

| member | source | states |
|---|---|---|
| StringExtensions.SplitCount | vagrant/RecordLinkagePipeline/Pipeline/Infrastructure/StringExtensions.cs:12-15 | splitting yields exactly one more token than the text has separator characters, empty tokens included |
| StringExtensions.SplitTokensHaveNoSeparator | vagrant/RecordLinkagePipeline/Pipeline/Infrastructure/StringExtensions.cs:12-15 | no token of a split holds a separator character |
| StringExtensions.SplitWithoutSeparator | vagrant/RecordLinkagePipeline/Pipeline/Infrastructure/StringExtensions.cs:12-15 | a text without separators splits into itself alone |
| StringExtensions.SplitAt | vagrant/RecordLinkagePipeline/Pipeline/Infrastructure/StringExtensions.cs:12-15 | a split at a separator character is the split of the text before it followed by the split of the text after it |
| StringExtensions.JoinSplit | vagrant/RecordLinkagePipeline/Pipeline/Infrastructure/StringExtensions.cs:12-15 | when the only separator character in a text is c, joining its tokens with c gives the text back |
| StringExtensions.SplitJoin | vagrant/RecordLinkagePipeline/Pipeline/Infrastructure/StringExtensions.cs:12-15 | joining separator-free tokens with a separator and splitting again gives the tokens back |
| StringExtensions.TokenizeExample | vagrant/RecordLinkagePipeline/PipelineTests/Infrastructure/StringExtensionsTests.cs:17-22 | "ant bee cat" splits into ant, bee and cat |
| StringExtensions.Windows | vagrant/RecordLinkagePipeline/Pipeline/Infrastructure/StringExtensions.cs:23-36 | the windows of size k number max(0, L-k+1), and window i is the substring of length k that starts at i |
| StringExtensions.CharacterNGrams | vagrant/RecordLinkagePipeline/Pipeline/Infrastructure/StringExtensions.cs:21-37 | the character n-grams number max(0,L-1)+max(0,L-2)+max(0,L-3); all bigrams come first, then all trigrams, then all quadgrams, each the substring at its window start |
| StringExtensions.CharacterNGramOccurs | vagrant/RecordLinkagePipeline/Pipeline/Infrastructure/StringExtensions.cs:21-37 | every character n-gram occurs in the text |
| StringExtensions.CharacterNGramsExample | vagrant/RecordLinkagePipeline/PipelineTests/Infrastructure/StringExtensionsTests.cs:11-15 | "abcd" yields ab, bc, cd, abc, bcd, abcd in that order |
| StringExtensions.UniBiShingles | vagrant/RecordLinkagePipeline/Pipeline/Infrastructure/StringExtensions.cs:47-56 | k ≥ 1 tokens yield 2k-1 shingles: token i at position 2i, and tokens i and i+1 concatenated at 2i+1; no tokens yield none |
| StringExtensions.UniBiTokenShingles | vagrant/RecordLinkagePipeline/Pipeline/Infrastructure/StringExtensions.cs:43-57 | a text yields twice its white-space token count less one shingles (it always has one token) |
| StringExtensions.UniBiShinglesExample | vagrant/RecordLinkagePipeline/PipelineTests/Infrastructure/StringExtensionsTests.cs:17-22 | ant, bee, cat yield ant, antbee, bee, beecat, cat |
| StringExtensions.UniBiTokenShinglesExample | vagrant/RecordLinkagePipeline/PipelineTests/Infrastructure/StringExtensionsTests.cs:17-22 | the text "ant bee cat" yields ant, antbee, bee, beecat, cat |
| StringArrayExtensions.Shingles | vagrant/RecordLinkagePipeline/Pipeline/Infrastructure/StringArrayExtensions.cs:19-31 | there are max(0, L - n + 1) n-shingles for L tokens, as many starts as the loop bound admits |
| StringArrayExtensions.ShingleAt | vagrant/RecordLinkagePipeline/Pipeline/Infrastructure/StringArrayExtensions.cs:19-31 | shingle i is the concatenation of tokens i to i+n-1 (the empty string when n ≤ 0) |
| StringArrayExtensions.CreateNShingles | vagrant/RecordLinkagePipeline/Pipeline/Infrastructure/StringArrayExtensions.cs:19-31 | the buffer loop yields exactly the n-shingles |
| StringArrayExtensions.Window | vagrant/RecordLinkagePipeline/Pipeline/Infrastructure/StringArrayExtensions.cs:24-28 | the cleared buffer is refilled with exactly the n tokens from the current start, and stays empty when n is not positive |
| StringArrayExtensions.ShinglesRange | vagrant/RecordLinkagePipeline/Pipeline/Infrastructure/StringArrayExtensions.cs:10-16 | the range overload is the n-shingles for n = from..to in increasing order, and empty when to < from; from > 0 is required |
| StringArrayExtensions.CreateNShinglesRange | vagrant/RecordLinkagePipeline/Pipeline/Infrastructure/StringArrayExtensions.cs:10-16 | the loop over n yields exactly the range of shingles |
| StringArrayExtensions.FourShingleExample | vagrant/RecordLinkagePipeline/PipelineTests/Infrastructure/StringArrayExtensionsTests.cs:11-16 | a, b, c, d with n = 4 yield only "abcd" |
| StringArrayExtensions.RangeExample | vagrant/RecordLinkagePipeline/PipelineTests/Infrastructure/StringArrayExtensionsTests.cs:17-22 | a, b, c, d with sizes 1 to 4 yield the ten contiguous concatenations |
| StringArrayExtensions.SingleTokenRangeExample | vagrant/RecordLinkagePipeline/PipelineTests/Infrastructure/StringArrayExtensionsTests.cs:31-36 | one token with sizes 2 to 3 yields nothing |
| StringArrayExtensions.TwoTokenRangeExample | vagrant/RecordLinkagePipeline/PipelineTests/Infrastructure/StringArrayExtensionsTests.cs:38-43 | two tokens with sizes 2 to 3 yield only "antbee" |
| Munger.Collapse | vagrant/RecordLinkagePipeline/Pipeline/Extraction/Munger.cs:19-31 | the munged text is no longer than the input |
| Munger.LowerAll | vagrant/RecordLinkagePipeline/Pipeline/Extraction/Munger.cs:23 | every character lower-cased in place |
| Munger.Munge | vagrant/RecordLinkagePipeline/Pipeline/Extraction/Munger.cs:14-33 | the loop over the characters, with its result list and space flag, computes the collapsed text |
| Munger.CollapseAppend | vagrant/RecordLinkagePipeline/Pipeline/Extraction/Munger.cs:19-31 | munging two texts in a row is munging the first, then the second from the flag the first leaves |
| Munger.CollapseCharacters | vagrant/RecordLinkagePipeline/Pipeline/Extraction/Munger.cs:19-31 | every output character is a space or the lower-cased form of an input letter or digit |
| Munger.LettersKeptInOrder | vagrant/RecordLinkagePipeline/Pipeline/Extraction/Munger.cs:21-25 | the non-space output characters are exactly the input's letters and digits, lower-cased, in order |
| Munger.NoDoubleSpaces | vagrant/RecordLinkagePipeline/Pipeline/Extraction/Munger.cs:24-30 | the output never holds two spaces in a row, and never starts with one when the flag starts set |
| Munger.TrailingSpace | vagrant/RecordLinkagePipeline/Pipeline/Extraction/Munger.cs:24-30 | the output of a non-empty input ends in a space exactly when the input ends in a character that is not a letter or digit |
| Munger.LeadingSpace | vagrant/RecordLinkagePipeline/Pipeline/Extraction/Munger.cs:18-30 | an input that starts with punctuation gives an output that starts with exactly one space, because the flag starts cleared |
| Munger.CollapseWord | vagrant/RecordLinkagePipeline/Pipeline/Extraction/Munger.cs:21-25 | a run of letters and digits is kept lower-cased |
| Munger.CollapseRun | vagrant/RecordLinkagePipeline/Pipeline/Extraction/Munger.cs:26-30 | a run of other characters becomes one space, or nothing right after a space |
| Munger.RunBecomesOneSpace | vagrant/RecordLinkagePipeline/Pipeline/Extraction/Munger.cs:24-30 | every maximal run of characters that are not letters or digits becomes exactly one space |
| Munger.ReplaceRun | vagrant/RecordLinkagePipeline/Pipeline/Extraction/Munger.cs:24-30 | replacing one such run by another leaves the output unchanged |
| Munger.Interleave | vagrant/RecordLinkagePipeline/PipelineTests/Extraction/MungerTests.cs:19-25 | words interleaved with separator runs; one word and one run give the word followed by the run |
| Munger.SpacedWords | vagrant/RecordLinkagePipeline/Pipeline/Extraction/Munger.cs:19-31 | no words give the empty text |
| Munger.CollapseInterleaved | vagrant/RecordLinkagePipeline/Pipeline/Extraction/Munger.cs:19-31 | words separated by punctuation runs munge to the lower-cased words, each followed by one space |
| Munger.SameWordsSameText | vagrant/RecordLinkagePipeline/Pipeline/Extraction/Munger.cs:19-31 | the same words with different punctuation runs munge to the same text |
| Munger.MungeExample | vagrant/RecordLinkagePipeline/PipelineTests/Extraction/MungerTests.cs:19-25 | "1. This=is-a test 1!!!" and "1 This is a test 1 " munge to the same text |
| FieldMunger.TrimEnd | vagrant/RecordLinkagePipeline/Pipeline/Infrastructure/FieldMunger.cs:31-35 | the trailing white space removed: a prefix of the input that does not end in white space, with only white space cut off |
| FieldMunger.Munge | vagrant/RecordLinkagePipeline/Pipeline/Infrastructure/FieldMunger.cs:12-38 | the collapsing loop followed by the trimming loop computes the munged text without trailing white space |
| FieldMunger.AtMostOneSpaceTrimmed | vagrant/RecordLinkagePipeline/Pipeline/Infrastructure/FieldMunger.cs:31-35 | the field form is the form the listing munger gives, less one trailing space when there is one |
| FieldMunger.FieldFormShape | vagrant/RecordLinkagePipeline/Pipeline/Infrastructure/FieldMunger.cs:16-35 | the output is no longer than the input, never ends in white space, never holds two spaces in a row, and holds only spaces and lower-cased input letters and digits |
| FieldMunger.FieldLettersKeptInOrder | vagrant/RecordLinkagePipeline/Pipeline/Infrastructure/FieldMunger.cs:19-23 | the input's letters and digits appear lower-cased, in order, as the non-space characters of the output |
| FieldMunger.NoLettersGivesEmpty | vagrant/RecordLinkagePipeline/PipelineTests/Infrastructure/FieldMungerTests.cs:28-33 | an input without letters or digits gives the empty text |
| FieldMunger.FieldLeadingSpace | vagrant/RecordLinkagePipeline/Pipeline/Infrastructure/FieldMunger.cs:16-28 | an input that starts with punctuation and holds a letter or digit gives an output that starts with exactly one space |
| FieldMunger.DashesExample | vagrant/RecordLinkagePipeline/PipelineTests/Infrastructure/FieldMungerTests.cs:28-33 | a field of 28 dashes munges to the empty text |
| FieldMunger.FieldMungeExample | vagrant/RecordLinkagePipeline/PipelineTests/Infrastructure/FieldMungerTests.cs:17-23 | "1. This=is-a test 1!!!" and "1 This is a test 1 " munge to the same field |
| DictionaryExtensions.Incremented | vagrant/RecordLinkagePipeline/Pipeline/Infrastructure/IDictionaryExtensions.cs:11-17 | the key set gains the key; a present key's count goes up by one, an absent key's count becomes 1, and every other entry is unchanged |
| DictionaryExtensions.TallyCounts | vagrant/RecordLinkagePipeline/Pipeline/Infrastructure/IDictionaryExtensions.cs:11-17 | counting a sequence key by key gives exactly its elements as keys, each mapped to its number of occurrences (at least 1) |
| DictionaryExtensions.TallyAppend | vagrant/RecordLinkagePipeline/Pipeline/Infrastructure/IDictionaryExtensions.cs:11-17 | counting one more element is one AddOrIncrement on the counts so far |
| DictionaryExtensions.CountTable.AddOrIncrement | vagrant/RecordLinkagePipeline/Pipeline/Infrastructure/IDictionaryExtensions.cs:11-17 | the counter map is updated in place: the key set gains the key, a present key goes up by one, an absent key becomes 1, nothing else changes |
| ListExtensions.LastIndex | vagrant/RecordLinkagePipeline/Pipeline/Infrastructure/IListTExtensions.cs:14-23 | the result lies in [-1, Count-1]; a non-negative result satisfies the predicate and no later element does |
| ListExtensions.LastIndexWhere | vagrant/RecordLinkagePipeline/Pipeline/Infrastructure/IListTExtensions.cs:14-23 | the loop that keeps overwriting maxIdx returns the last index that satisfies the predicate |
| ListExtensions.NotFound | vagrant/RecordLinkagePipeline/Pipeline/Infrastructure/IListTExtensions.cs:13-22 | the result is -1 exactly when no element satisfies the predicate, so in particular for an empty list |
| ListExtensions.LastIndexExample | vagrant/RecordLinkagePipeline/PipelineTests/Infrastructure/IListTExtensionsTests.cs:28-34 | the last 3 of [0,1,2,1,2,3] is at index 5, and a value that does not occur gives -1 |
| WordFrequency.AllTokensMembership | vagrant/RecordLinkagePipeline/Pipeline/Analysis/WordFrequencyCalculator.cs:11-18 | a token is among all the documents' tokens exactly when some document's white-space split holds it |
| WordFrequency.GetWordFrequency | vagrant/RecordLinkagePipeline/Pipeline/Analysis/WordFrequencyCalculator.cs:8-20 | the nested loops leave each token mapped to its number of occurrences over all documents' splits |
| WordFrequency.CountDocument | vagrant/RecordLinkagePipeline/Pipeline/Analysis/WordFrequencyCalculator.cs:13-17 | incrementing for each token of one document extends the tally of the tokens counted so far by that document's tokens, in order |
| WordFrequency.WordFrequencyCounts | vagrant/RecordLinkagePipeline/Pipeline/Analysis/WordFrequencyCalculator.cs:10-19 | the keys are exactly the tokens that occur, each count is its number of occurrences with repeats (so at least 1), and no documents give the empty map |
| WordFrequency.EmptyDocumentCountsOnce | vagrant/RecordLinkagePipeline/Pipeline/Analysis/WordFrequencyCalculator.cs:13-17 | an empty document adds one empty-string token |
| TokenProbability.GetProbabilities | vagrant/RecordLinkagePipeline/Pipeline/Analysis/TokenProbabilityCalculator.cs:13-29 | the counting loop with its document counter, then the division, gives each token's occurrence count over the number of documents |
| TokenProbability.ProbabilityKeys | vagrant/RecordLinkagePipeline/Pipeline/Analysis/TokenProbabilityCalculator.cs:17-28 | the keys are exactly the tokens that occur in some document |
| TokenProbability.ProbabilityValue | vagrant/RecordLinkagePipeline/Pipeline/Analysis/TokenProbabilityCalculator.cs:19-28 | a key's value is its total occurrence count divided by the number of documents, and is positive |
| TokenProbability.RepeatsCanExceedOne | vagrant/RecordLinkagePipeline/Pipeline/Analysis/TokenProbabilityCalculator.cs:19-28 | repeats count: the single document "A A" gives A the value 2 |
| TokenProbability.RateOf | vagrant/RecordLinkagePipeline/Pipeline/Analysis/TokenProbabilityCalculator.cs:19-28 | a token that occurs n times over d documents has the rate n/d |
| TokenProbability.SevenTitlesTokens | vagrant/RecordLinkagePipeline/PipelineTests/Analysis/TokenProbabilityCalculatorTests.cs:15-24 | the seven test titles give their letters as tokens in document order, the empty title one empty token |
| TokenProbability.SevenTitlesCounts | vagrant/RecordLinkagePipeline/PipelineTests/Analysis/TokenProbabilityCalculatorTests.cs:15-24 | among those tokens A occurs 6 times, F twice and G never |
| TokenProbability.SevenTitlesRates | vagrant/RecordLinkagePipeline/PipelineTests/Analysis/TokenProbabilityCalculatorTests.cs:25-29 | over seven documents those counts give A the rate 6/7, F the rate 2/7, and no key G |
| TokenProbability.SevenTitlesExample | vagrant/RecordLinkagePipeline/PipelineTests/Analysis/TokenProbabilityCalculatorTests.cs:13-30 | the seven test titles give A the rate 6/7, F the rate 2/7, and no key G |
| CanonicalNames.Generate | vagrant/RecordLinkagePipeline/Pipeline/Analysis/CanonicalManufacturerNameGenerator.cs:9-12 | every product's manufacturer is in the set, every name in the set is some product's manufacturer, and no products give the empty set |
| CanonicalNames.GenerateSize | vagrant/RecordLinkagePipeline/Pipeline/Analysis/CanonicalManufacturerNameGenerator.cs:11 | there are no more names than products |
| CanonicalNames.GenerateSnoc | vagrant/RecordLinkagePipeline/Pipeline/Analysis/CanonicalManufacturerNameGenerator.cs:11 | one more product adds exactly its manufacturer |
| Grouping.KeysDistinct | vagrant/RecordLinkagePipeline/Pipeline/Matching/ManufacturerProductsBlockGrouper.cs:19-22 | a key is entered only once, so the block keys are distinct |
| Grouping.KeysComplete | vagrant/RecordLinkagePipeline/Pipeline/Matching/ManufacturerProductsBlockGrouper.cs:17-24 | a name is a block key exactly when some element carries it |
| Grouping.GroupMembership | vagrant/RecordLinkagePipeline/Pipeline/Matching/ManufacturerProductsBlockGrouper.cs:23 | an element is in the block for k exactly when it is an input element keyed k |
| Grouping.UnkeyedMembership | vagrant/RecordLinkagePipeline/Pipeline/Matching/ManufacturerListingsBlockGrouper.cs:65-69 | an element is left unmatched exactly when it is an input element with no key |
| Grouping.GroupNonEmpty | vagrant/RecordLinkagePipeline/Pipeline/Matching/ManufacturerListingsBlockGrouper.cs:77-81 | a block is created together with its first member, so no block is empty |
| Grouping.Partition | vagrant/RecordLinkagePipeline/Pipeline/Matching/ManufacturerProductsBlockGrouper.cs:17-24 | the block sizes plus the unmatched count add up to the input count |
| Grouping.BlocksPartition | vagrant/RecordLinkagePipeline/Pipeline/Matching/ManufacturerListingsBlockGrouper.cs:25-81 | every element is in exactly one block (the one for its key) or unmatched; keys are distinct, no block is empty, every block and the unmatched list keep input order, and the sizes add up |
| Grouping.BlockAt | vagrant/RecordLinkagePipeline/Pipeline/Matching/ManufacturerProductsBlockGrouper.cs:17-26 | each block holds exactly the input elements with its key, in input order, and is not empty |
| Grouping.BlockIndexOf | vagrant/RecordLinkagePipeline/Pipeline/Matching/ManufacturerProductsBlockGrouper.cs:17-26 | every keyed element has a block for its key |
| Grouping.BlockKeysCarried | vagrant/RecordLinkagePipeline/Pipeline/Matching/ManufacturerProductsBlockGrouper.cs:17-26 | a property every element key has, every block key has |
| Grouping.TabulatesSnoc | vagrant/RecordLinkagePipeline/Pipeline/Matching/ManufacturerListingsBlockGrouper.cs:77-81 | adding one element to the dictionary of lists keeps it equal to the grouping of the elements seen so far |
| Grouping.TableBlocksAre | vagrant/RecordLinkagePipeline/Pipeline/Matching/ManufacturerProductsBlockGrouper.cs:26 | reading the dictionary of lists in key-insertion order gives the blocks |
| Grouping.BlockTable.Add | vagrant/RecordLinkagePipeline/Pipeline/Matching/ManufacturerListingsBlockGrouper.cs:77-81 | AddMatch updates the dictionary in place: a new key gets a new list, and the element is appended to its key's list |
| ProductsBlockGrouper.Match | vagrant/RecordLinkagePipeline/Pipeline/Matching/ManufacturerProductsBlockGrouper.cs:13-27 | the loop over the products fills the dictionary and builds the blocks by manufacturer, ignoring the canonical names |
| ProductsBlockGrouper.NewBlocks | vagrant/RecordLinkagePipeline/Pipeline/Matching/ManufacturerNameProductsBlock.cs:16-23 | building the blocks fails with ArgumentNull when a name is empty, and otherwise gives the table's blocks |
| ProductsBlockGrouper.EmptyManufacturerThrows | vagrant/RecordLinkagePipeline/Pipeline/Matching/ManufacturerNameProductsBlock.cs:18 | blocking fails, with ArgumentNull, exactly when some product has an empty manufacturer |
| ProductsBlockGrouper.ProductBlocksPartition | vagrant/RecordLinkagePipeline/Pipeline/Matching/ManufacturerProductsBlockGrouper.cs:17-26 | one block per distinct manufacturer; each product is in exactly the block of its manufacturer; blocks keep input order and are not empty; the sizes add up to the product count |
| ListingsBlockGrouper.AliasMapSpec | vagrant/RecordLinkagePipeline/Pipeline/Matching/ManufacturerListingsBlockGrouper.cs:17 | the alias dictionary fails with DuplicateKey exactly when two aliases share an alias string; otherwise it maps every alias string to its canonical name and holds nothing else |
| ListingsBlockGrouper.NewGrouper | vagrant/RecordLinkagePipeline/Pipeline/Matching/ManufacturerListingsBlockGrouper.cs:14-18 | the constructor keeps the canonical names |
| ListingsBlockGrouper.RouteListing | vagrant/RecordLinkagePipeline/Pipeline/Matching/ManufacturerListingsBlockGrouper.cs:27-63 | the three loops with their found flag compute the routing rules in order |
| ListingsBlockGrouper.Match | vagrant/RecordLinkagePipeline/Pipeline/Matching/ManufacturerListingsBlockGrouper.cs:20-75 | the loop over the listings gives the blocks of the listings by route and the unmatched listings |
| ListingsBlockGrouper.ListingsPartition | vagrant/RecordLinkagePipeline/Pipeline/Matching/ManufacturerListingsBlockGrouper.cs:25-81 | every listing is in exactly one block (the one its route names) or in the unmatched list, never both; no block is empty; order is kept; the sizes add up |
| ListingsBlockGrouper.Rule1 | vagrant/RecordLinkagePipeline/Pipeline/Matching/ManufacturerListingsBlockGrouper.cs:29-41 | the first manufacturer token that is a canonical name decides the block |
| ListingsBlockGrouper.Rule2 | vagrant/RecordLinkagePipeline/Pipeline/Matching/ManufacturerListingsBlockGrouper.cs:43-55 | when no token is a canonical name, the first multi-word canonical name that shares a token with the listing decides |
| ListingsBlockGrouper.Rule3 | vagrant/RecordLinkagePipeline/Pipeline/Matching/ManufacturerListingsBlockGrouper.cs:57-69 | when neither rule applies, the whole manufacturer text is looked up as an alias; without an alias the listing is unmatched |
| ListingsBlockGrouper.SingleListing | vagrant/RecordLinkagePipeline/Pipeline/Matching/ManufacturerListingsBlockGrouper.cs:72-74 | one routed listing gives one block holding just it, and nothing unmatched |
| ListingsBlockGrouper.RepeatedTokenExample | vagrant/RecordLinkagePipeline/PipelineTests/Matching/ManufacturerListingsBlockGrouperTests.cs:12-23 | "A A A" with canonical names A, B, C goes to the block A |
| ListingsBlockGrouper.MultiWordExample | vagrant/RecordLinkagePipeline/PipelineTests/Matching/ManufacturerListingsBlockGrouperTests.cs:40-50 | "konica minolta" goes to the block of the canonical name "konica minolta" |
| ListingsBlockGrouper.AliasExample | vagrant/RecordLinkagePipeline/PipelineTests/Matching/ManufacturerListingsBlockGrouperTests.cs:25-35 | a listing by the alias "Alias" goes to the block of its canonical name |
| SimilarityAlias.NameNGrams | vagrant/RecordLinkagePipeline/Pipeline/Analysis/SimilarityAliasGenerator.cs:183-190 | the character n-grams are kept for exactly the products' manufacturer names |
| SimilarityAlias.NameHits | vagrant/RecordLinkagePipeline/Pipeline/Analysis/SimilarityAliasGenerator.cs:151-158 | the hit count is at most the number of n-grams |
| SimilarityAlias.NameSimilarity | vagrant/RecordLinkagePipeline/Pipeline/Analysis/SimilarityAliasGenerator.cs:143-161 | a name without n-gram entry scores 0; an entry with no n-grams fails with DivideByZero, and only then; otherwise the score lies in [0, 100] |
| SimilarityAlias.CompareManufacturerNameSimilarity | vagrant/RecordLinkagePipeline/Pipeline/Analysis/SimilarityAliasGenerator.cs:143-161 | the hit-counting loop computes (100 × hits) div n-gram count, or the failure |
| SimilarityAlias.AllHit | vagrant/RecordLinkagePipeline/Pipeline/Analysis/SimilarityAliasGenerator.cs:151-158 | when every n-gram is found, the hits equal the n-gram count |
| SimilarityAlias.ShortNameDividesByZero | vagrant/RecordLinkagePipeline/Pipeline/Analysis/SimilarityAliasGenerator.cs:160 | a canonical name shorter than 2 characters has no n-grams, so its similarity divides by zero |
| SimilarityAlias.ContainedNameScoresPerfect | vagrant/RecordLinkagePipeline/Pipeline/Analysis/SimilarityAliasGenerator.cs:143-161 | a listing name that contains a canonical name of 2 or more characters scores 100 against it |
| SimilarityAlias.BestMatch | vagrant/RecordLinkagePipeline/Pipeline/Analysis/SimilarityAliasGenerator.cs:66-97 | the per-listing scan fails only with DivideByZero, and a chosen pair always has a positive model score |
| SimilarityAlias.ScanListing | vagrant/RecordLinkagePipeline/Pipeline/Analysis/SimilarityAliasGenerator.cs:66-97 | the loop over the products, with bestMatch and bestModelMatchScore, computes the best match |
| SimilarityAlias.ErrorPersists | vagrant/RecordLinkagePipeline/Pipeline/Analysis/SimilarityAliasGenerator.cs:69-97 | once a similarity fails, the scan of the remaining products keeps that failure |
| SimilarityAlias.BestMatchFails | vagrant/RecordLinkagePipeline/Pipeline/Analysis/SimilarityAliasGenerator.cs:69-97 | the scan fails exactly when the similarity of some product fails |
| SimilarityAlias.BestMatchNone | vagrant/RecordLinkagePipeline/Pipeline/Analysis/SimilarityAliasGenerator.cs:75-97 | the scan chooses nothing exactly when no product passes the name cutoff of 33, the identical-name skip and the positive model score |
| SimilarityAlias.FirstMinimumExtend | vagrant/RecordLinkagePipeline/Pipeline/Analysis/SimilarityAliasGenerator.cs:89-96 | a later product whose score is not strictly smaller leaves the choice unchanged |
| SimilarityAlias.FirstMinimumNew | vagrant/RecordLinkagePipeline/Pipeline/Analysis/SimilarityAliasGenerator.cs:89-96 | a later product whose score is strictly smaller than all earlier ones becomes the choice |
| SimilarityAlias.BestMatchIsFirstMinimum | vagrant/RecordLinkagePipeline/Pipeline/Analysis/SimilarityAliasGenerator.cs:85-96 | the chosen pair comes from the first product that attains the smallest positive model score among the qualifying products |
| SimilarityAlias.ChosenPairNotReflexive | vagrant/RecordLinkagePipeline/Pipeline/Analysis/SimilarityAliasGenerator.cs:75-80 | a chosen pair never has canonical name equal to alias |
| SimilarityAlias.OfferNotReflexive | vagrant/RecordLinkagePipeline/Pipeline/Analysis/SimilarityAliasGenerator.cs:75-80 | a product that qualifies never has the listing's own manufacturer name |
| SimilarityAlias.CommonTokens | vagrant/RecordLinkagePipeline/Pipeline/Analysis/SimilarityAliasGenerator.cs:136-141 | an empty probability map fails with ArgumentOutOfRange, and only then; otherwise the common tokens are a proper subset of the keys |
| SimilarityAlias.Choices | vagrant/RecordLinkagePipeline/Pipeline/Analysis/SimilarityAliasGenerator.cs:62-104 | every listing is scanned: the scans succeed exactly when each listing's does, one choice per listing |
| SimilarityAlias.AddScore | vagrant/RecordLinkagePipeline/Pipeline/Analysis/SimilarityAliasGenerator.cs:102 | AddOrUpdate adds the chosen pair's key and leaves the other pairs' sums unchanged |
| SimilarityAlias.TotalsAreSums | vagrant/RecordLinkagePipeline/Pipeline/Analysis/SimilarityAliasGenerator.cs:99-103 | a pair has an accumulated value exactly when some listing chose it, and the value is the sum of the best scores of the listings that chose it |
| SimilarityAlias.NotChosenSumsToZero | vagrant/RecordLinkagePipeline/Pipeline/Analysis/SimilarityAliasGenerator.cs:99-103 | a pair no listing chose sums to zero |
| SimilarityAlias.TotalsPositive | vagrant/RecordLinkagePipeline/Pipeline/Analysis/SimilarityAliasGenerator.cs:99-103 | every accumulated value is positive |
| SimilarityAlias.Selected | vagrant/RecordLinkagePipeline/Pipeline/Analysis/SimilarityAliasGenerator.cs:106-110 | every returned alias comes from an accumulated pair |
| SimilarityAlias.Generate | vagrant/RecordLinkagePipeline/Pipeline/Analysis/SimilarityAliasGenerator.cs:54-111 | the generator computes the aliases: common tokens, per-listing scans, accumulation and the cutoff |
| SimilarityAlias.EmptyProbabilitiesThrow | vagrant/RecordLinkagePipeline/Pipeline/Analysis/SimilarityAliasGenerator.cs:136-141 | an empty probability map makes the generator fail with ArgumentOutOfRange |
| SimilarityAlias.NoReflexiveAlias | vagrant/RecordLinkagePipeline/Pipeline/Analysis/SimilarityAliasGenerator.cs:75-80 | no returned alias has canonical name equal to alias |
| SimilarityAlias.AtMostOnePairAllReturned | vagrant/RecordLinkagePipeline/Pipeline/Analysis/SimilarityAliasGenerator.cs:106-110 | with at most one distinct pair the cutoff is 0, so every chosen pair is returned |
| SimilarityAlias.UniformProbabilitiesNoCommonTokens | vagrant/RecordLinkagePipeline/Pipeline/Analysis/SimilarityAliasGenerator.cs:136-141 | when all probabilities are equal no token is above the cutoff, so none is common |
| SimilarityAlias.SinglePossibleMatch | vagrant/RecordLinkagePipeline/Pipeline/Analysis/SimilarityAliasGenerator.cs:54-111 | one product whose name the listing's manufacturer contains, with a different manufacturer name and a positive model score, gives exactly that alias |
| SimilarityAlias.SingleScan | vagrant/RecordLinkagePipeline/Pipeline/Analysis/SimilarityAliasGenerator.cs:66-97 | that one product is the listing's choice, with its model score |
| SimilarityAlias.SingleChoiceSelected | vagrant/RecordLinkagePipeline/Pipeline/Analysis/SimilarityAliasGenerator.cs:106-110 | a single positive choice is returned |
| SimilarityAlias.AcmeExample | vagrant/RecordLinkagePipeline/Pipeline/Analysis/SimilarityAliasGenerator.cs:54-111 | the product manufacturer "acme" and the listing manufacturer "acme corp" give the alias acme for "acme corp" |
| ProductModelMatcher.CountFragmentChars | vagrant/RecordLinkagePipeline/Pipeline/Matching/ProductModelMatcher.cs:116-126 | the counting loops leave every character mapped to its number of occurrences in the fragments |
| ProductModelMatcher.CheckMatchesHaveCharsToMakeString | vagrant/RecordLinkagePipeline/Pipeline/Matching/ProductModelMatcher.cs:112-141 | the check returns true exactly when the fragments hold, with multiplicity, every non-white-space character of the required text; an empty text is always made |
| ProductModelMatcher.MissingCharFails | vagrant/RecordLinkagePipeline/Pipeline/Matching/ProductModelMatcher.cs:128-135 | a required non-white-space character that no fragment holds makes the check fail |
| ProductModelMatcher.WithoutWhiteSpaceIsTokens | vagrant/RecordLinkagePipeline/Pipeline/Matching/ProductModelMatcher.cs:130 | a text without its white space is the concatenation of its white-space tokens |
| ProductModelMatcher.CanMakeFromOwnTokens | vagrant/RecordLinkagePipeline/Pipeline/Matching/ProductModelMatcher.cs:112-141 | the tokens of a text can always make the text |
| ProductModelMatcher.ThreePartModelExample | vagrant/RecordLinkagePipeline/PipelineTests/Matching/ProductModelMatcherTests.cs:228-247 | the model "pen e pl2" cannot be made from the fragments pen, e and pene: there is no '2' |
| ProductModelMatcher.NumberThenLettersExample | vagrant/RecordLinkagePipeline/PipelineTests/Matching/ProductModelMatcherTests.cs:62-87 | the model "130 is" cannot be made from the fragment "is" alone |
| ProductModelMatcher.Candidates | vagrant/RecordLinkagePipeline/Pipeline/Matching/ProductModelMatcher.cs:22-32 | one candidate per product, in block order |
| ProductModelMatcher.PrepareProducts | vagrant/RecordLinkagePipeline/Pipeline/Matching/ProductModelMatcher.cs:22-32 | the first loop gives every product its model n-grams (1 up to max(model tokens, 3)) and family n-grams (none for an empty family, the upper size from the model's token count) |
| ProductModelMatcher.PrepareListings | vagrant/RecordLinkagePipeline/Pipeline/Matching/ProductModelMatcher.cs:34-43 | the second loop gives every listing its title n-grams (1 up to min(title tokens, 3)) and counts every n-gram of every title |
| ProductModelMatcher.CountTitle | vagrant/RecordLinkagePipeline/Pipeline/Matching/ProductModelMatcher.cs:37-40 | one listing's title n-grams are computed and each is added to the running n-gram count, extending its tally |
| ProductModelMatcher.TokenCountIsOccurrences | vagrant/RecordLinkagePipeline/Pipeline/Matching/ProductModelMatcher.cs:35-43 | tokenCount has exactly the n-grams of the titles as keys, each mapped to its number of occurrences over all titles |
| ProductModelMatcher.AllTitleNGramsMembership | vagrant/RecordLinkagePipeline/Pipeline/Matching/ProductModelMatcher.cs:35-43 | an n-gram is among all the title n-grams exactly when some title has it |
| ProductModelMatcher.Frequencies | vagrant/RecordLinkagePipeline/Pipeline/Matching/ProductModelMatcher.cs:65-69 | one count per matched n-gram |
| ProductModelMatcher.Best | vagrant/RecordLinkagePipeline/Pipeline/Matching/ProductModelMatcher.cs:54-92 | the scan's choice is a candidate that offered exactly the chosen score |
| ProductModelMatcher.BestStep | vagrant/RecordLinkagePipeline/Pipeline/Matching/ProductModelMatcher.cs:72-91 | one more candidate replaces the best unless its score is lower |
| ProductModelMatcher.BestIsLastMaximum | vagrant/RecordLinkagePipeline/Pipeline/Matching/ProductModelMatcher.cs:72-91 | nothing is chosen exactly when no candidate is feasible; otherwise the chosen score is maximal and every later feasible candidate scores strictly less, so the last maximal one wins |
| ProductModelMatcher.Choice | vagrant/RecordLinkagePipeline/Pipeline/Matching/ProductModelMatcher.cs:50-92 | the chosen product is one of the block's |
| ProductModelMatcher.ChooseProduct | vagrant/RecordLinkagePipeline/Pipeline/Matching/ProductModelMatcher.cs:54-92 | the inner loop with bestScore and bestMatch computes the choice |
| ProductModelMatcher.Consider | vagrant/RecordLinkagePipeline/Pipeline/Matching/ProductModelMatcher.cs:58-91 | a product is taken exactly when it offers a feasible positive score that is not below the best so far, and then with that score |
| ProductModelMatcher.MatchedBlocksKeys | vagrant/RecordLinkagePipeline/Pipeline/Matching/ProductModelMatcher.cs:94-103 | every match refers to a product of the block |
| ProductModelMatcher.FindProductMatches | vagrant/RecordLinkagePipeline/Pipeline/Matching/ProductModelMatcher.cs:15-107 | the matcher's loops give the product matches and the unmatched listings of the block |
| ProductModelMatcher.MatchPartition | vagrant/RecordLinkagePipeline/Pipeline/Matching/ProductModelMatcher.cs:50-106 | every listing of the block is in exactly one product match (the one it is assigned to) or unmatched; no match is empty; matches keep block order; the sizes add up |
| ProductModelMatcher.MatchedAreBlocks | vagrant/RecordLinkagePipeline/Pipeline/Matching/ProductModelMatcher.cs:101-106 | each product match pairs a product of the block with its listings |
| ProductModelMatcher.OfferIsFeasible | vagrant/RecordLinkagePipeline/Pipeline/Matching/ProductModelMatcher.cs:60-88 | a product that may take a listing shares a title n-gram with its model, scores positively, has the characters of its model among the matched fragments, and those of its family too when a family n-gram matched |
| ProductModelMatcher.AssignedIsLastBestOffer | vagrant/RecordLinkagePipeline/Pipeline/Matching/ProductModelMatcher.cs:72-91 | for any title, the assigned product offers, its offer is maximal, and no later product offers as much |
| ProductModelMatcher.AssignedOnlyOnModelMatch | vagrant/RecordLinkagePipeline/Pipeline/Matching/ProductModelMatcher.cs:60-64 | a title is assigned only to a product whose model n-grams share one of its n-grams |
| ProductModelMatcher.SingleTokenModel | vagrant/RecordLinkagePipeline/Pipeline/Matching/ProductModelMatcher.cs:25-26 | a one-token model has itself as its only n-gram |
| ProductModelMatcher.ModelRequiredExample | vagrant/RecordLinkagePipeline/PipelineTests/Matching/ProductModelMatcherTests.cs:189-203 | the model "600" is never matched by a title without the n-gram "600" |
| Interquartile.Abs | vagrant/RecordLinkagePipeline/Pipeline/Infrastructure/IListDecimalExtensions.cs:41 | the absolute value is non-negative and is the value or its negation |
| Interquartile.QuartileIndicesInRange | vagrant/RecordLinkagePipeline/Pipeline/Infrastructure/IListDecimalExtensions.cs:35-39 | for a non-empty list, the first-quartile index (a quarter of the count, truncated) is at most the third-quartile index (three quarters, truncated), which is inside the list |
| Interquartile.InterquartileRange | vagrant/RecordLinkagePipeline/Pipeline/Infrastructure/IListDecimalExtensions.cs:33-43 | an empty list fails with an out-of-range error; otherwise the range is the two quartile values widened by the multiplier times their distance |
| Interquartile.StretchMonotone | vagrant/RecordLinkagePipeline/Pipeline/Infrastructure/IListDecimalExtensions.cs:41-42 | a larger multiplier never narrows the widening |
| Interquartile.BandHoldsQuartiles | vagrant/RecordLinkagePipeline/Pipeline/Infrastructure/IListDecimalExtensions.cs:33-43 | with a multiplier of at least 1 the lower end is at most the upper end and both quartile values lie inside the range |
| Interquartile.ZeroMultiplierInverts | vagrant/RecordLinkagePipeline/Pipeline/Infrastructure/IListDecimalExtensions.cs:33-43 | quartiles are read off the list as given, so on an unsorted list with multiplier 0 the lower end can exceed the upper end |
| Interquartile.BandWidens | vagrant/RecordLinkagePipeline/Pipeline/Infrastructure/IListDecimalExtensions.cs:41-42 | a value inside the range for one multiplier is inside the range for every larger one |
| Interquartile.StrongBandContainsWeak | vagrant/RecordLinkagePipeline/Pipeline/Infrastructure/IListDecimalExtensions.cs:14-28 | every value inside the weak (1.5) range is inside the strong (3) range |
| Interquartile.EqualQuartilesBand | vagrant/RecordLinkagePipeline/Pipeline/Infrastructure/IListDecimalExtensions.cs:41-42 | when the two quartile values are equal the range holds that value only |
| Interquartile.UnsortedInputExample | vagrant/RecordLinkagePipeline/Pipeline/Infrastructure/IListDecimalExtensions.cs:35-39 | the weak range of 1, 9, 5, 2 differs from that of the same values sorted: the list is not sorted first |
| Interquartile.WeakRangeExample | vagrant/RecordLinkagePipeline/PipelineTests/Infrastructure/IListDecimalExtensionsTests.cs:14-20 | the weak range of 1, 2, 2, 3, 3, 4, 5, 5, 9 is from -2.5 to 9.5 |
| ProductPriceOutlierClassifier.DistinctCons | vagrant/RecordLinkagePipeline/Pipeline/Classification/ProductPriceOutlierClassifer.cs:24 | source codes are distinct exactly when the first differs from all later ones and those are distinct |
| ProductPriceOutlierClassifier.RatesBySource | vagrant/RecordLinkagePipeline/Pipeline/Classification/ProductPriceOutlierClassifer.cs:24 | building the dictionary fails on a repeated source currency code; otherwise it maps exactly the given codes, each to its rate |
| ProductPriceOutlierClassifier.NewClassifier | vagrant/RecordLinkagePipeline/Pipeline/Classification/ProductPriceOutlierClassifer.cs:22-25 | the constructor succeeds exactly when the source codes are distinct, and then holds every rate under its code |
| ProductPriceOutlierClassifier.ClassifyAsCamera | vagrant/RecordLinkagePipeline/Pipeline/Classification/ProductPriceOutlierClassifer.cs:27-53 | one verdict per listing, in order; with fewer than 5 listings all are cameras; otherwise a listing is a camera exactly when its converted price lies between half the strong range's lower end (0 when that end is not positive) and five times its upper end |
| ProductPriceOutlierClassifier.StrongBandIsCamera | vagrant/RecordLinkagePipeline/Pipeline/Classification/ProductPriceOutlierClassifer.cs:44-50 | a non-negative converted price inside the strong range is always classified a camera |
| ProductPriceOutlierClassifier.QuartileListingsAreCameras | vagrant/RecordLinkagePipeline/Pipeline/Classification/ProductPriceOutlierClassifer.cs:39-50 | the listings at the two quartile positions are cameras when their converted prices are non-negative |
| ProductPriceOutlierClassifier.NegativePriceIsNotCamera | vagrant/RecordLinkagePipeline/Pipeline/Classification/ProductPriceOutlierClassifer.cs:46-50 | with at least 5 listings a negative converted price is never a camera |
| ProductPriceOutlierClassifier.ExampleRates | vagrant/RecordLinkagePipeline/PipelineTests/Classification/ProductPriceOutlierClassiferTests.cs:33-38 | the three sample rates build a classifier with CAD at rate 1 |
| ProductPriceOutlierClassifier.OneExpensiveListingExample | vagrant/RecordLinkagePipeline/PipelineTests/Classification/ProductPriceOutlierClassiferTests.cs:31-58 | of 90, five times 100, 110 and 2000 in CAD only the 2000 listing is not a camera |
| ProductPriceOutlierClassifier.SimilarPricesExample | vagrant/RecordLinkagePipeline/PipelineTests/Classification/ProductPriceOutlierClassiferTests.cs:61-71 | the six prices from 306 to 515 with no rates are all cameras |
| ProductMatchCostOutlierPruner.PriceInCAD | vagrant/RecordLinkagePipeline/Pipeline/Pruning/ProductMatchCostOutlierPruner.cs:49-59 | a listing without a currency code fails with a null-argument error; with a code that has no rate it keeps its price; otherwise the price is multiplied by the rate |
| ProductMatchCostOutlierPruner.NormalizedPrices | vagrant/RecordLinkagePipeline/Pipeline/Pruning/ProductMatchCostOutlierPruner.cs:35-37 | the conversion fails exactly when some listing fails; otherwise one converted price per listing, in order |
| ProductMatchCostOutlierPruner.PriceInCADAgrees | vagrant/RecordLinkagePipeline/Pipeline/Classification/ProductPriceOutlierClassifer.cs:55-64 | with equal rate maps, the price classifier and the cost pruner convert a listing that has a currency code to the same price; without a code the pruner fails with a null-argument error while the classifier keeps the price |
| ProductMatchCostOutlierPruner.NormalizedPricesAgree | vagrant/RecordLinkagePipeline/Pipeline/Classification/ProductPriceOutlierClassifer.cs:35-37 | with equal rate maps, the two conversions of a list of listings agree when every listing has a currency code, and the pruner fails when some listing lacks one |
| ProductMatchCostOutlierPruner.PruneListingsFails | vagrant/RecordLinkagePipeline/Pipeline/Pruning/ProductMatchCostOutlierPruner.cs:33-47 | pruning a match fails exactly when it has no listings or a listing has no currency code, with the null-argument error taking precedence |
| ProductMatchCostOutlierPruner.KeptAreTypical | vagrant/RecordLinkagePipeline/Pipeline/Pruning/ProductMatchCostOutlierPruner.cs:44-46 | the kept listings keep their order and are exactly those whose converted price lies in the weak range, each kept as many times as it occurs in the input |
| ProductMatchCostOutlierPruner.QuartileListingsKept | vagrant/RecordLinkagePipeline/Pipeline/Pruning/ProductMatchCostOutlierPruner.cs:39-46 | the listings at the two quartile positions are always kept, so no match is pruned to nothing |
| ProductMatchCostOutlierPruner.FirstFailureCons | vagrant/RecordLinkagePipeline/Pipeline/Pruning/ProductMatchCostOutlierPruner.cs:26-30 | the first failing match of the tail is the first failing match of the whole list when the head succeeds |
| ProductMatchCostOutlierPruner.Prune | vagrant/RecordLinkagePipeline/Pipeline/Pruning/ProductMatchCostOutlierPruner.cs:24-31 | every match keeps its product and gets its pruned listings, in order; when a match cannot be pruned, the error is that of the first such match |
| ProductMatchCostOutlierPruner.SimilarPricesExample | vagrant/RecordLinkagePipeline/PipelineTests/Pruning/ProductMatchCostOutlierPrunerTests.cs:12-32 | 90, 100 and 110 in CAD are all kept |
| ProductMatchCostOutlierPruner.OneExpensiveListingExample | vagrant/RecordLinkagePipeline/PipelineTests/Pruning/ProductMatchCostOutlierPrunerTests.cs:35-66 | of 90, five times 100, 110 and 2000 in CAD the 2000 listing is pruned and the others kept in order |
| CameraScoring.Sixth | vagrant/RecordLinkagePipeline/Pipeline/Classification/HeuristicClassifier.cs:97-102 | a sixth of an integer score rounds toward zero, as C#'s integer division does, for negative scores too |
| CameraScoring.WordsPresent | vagrant/RecordLinkagePipeline/Pipeline/Classification/HeuristicClassifier.cs:65-75 | the number of listed words found among the tokens is at most the number of listed words |
| CameraScoring.WordsPresentZero | vagrant/RecordLinkagePipeline/Pipeline/Classification/HeuristicClassifier.cs:65-75 | no listed word is counted exactly when none occurs among the tokens |
| CameraScoring.CameraWithScore | vagrant/RecordLinkagePipeline/Pipeline/Classification/HeuristicClassifier.cs:81-83 | the camera-with phrase scores 0 or 100 |
| CameraScoring.ForScore | vagrant/RecordLinkagePipeline/Pipeline/Classification/HeuristicClassifier.cs:88-89 | the for phrase scores 0 or -100 |
| CameraScoring.ForThenWithScore | vagrant/RecordLinkagePipeline/Pipeline/Classification/HeuristicClassifier.cs:93 | the for-then-with phrase scores 0 or -100 |
| CameraScoring.AbsentPhraseWords | vagrant/RecordLinkagePipeline/Pipeline/Classification/HeuristicClassifier.cs:81-93 | without a "with" token neither phrase that needs one scores, and likewise for "for" |
| CameraScoring.NoListedWords | vagrant/RecordLinkagePipeline/Pipeline/Classification/HeuristicClassifier.cs:96-102 | a title with no listed word, "with" or "for" scores 100 plus a sixth of its price score |
| CameraScoring.ForAfterFirstToken | vagrant/RecordLinkagePipeline/Pipeline/Classification/HeuristicClassifier.cs:88-89 | a "for" after the first token always costs the for-phrase score |
| CameraScoring.CameraWithAt | vagrant/RecordLinkagePipeline/Pipeline/Classification/HeuristicClassifier.cs:81-83 | "camera" straight before the last "with", after the first token, earns the camera-with score |
| HeuristicClassifier.LowCostScore | vagrant/RecordLinkagePipeline/Pipeline/Classification/HeuristicClassifier.cs:54-58 | from 80 up the price score is 0; a non-negative price scores between -100 and 0 |
| HeuristicClassifier.SquareBelowLowCost | vagrant/RecordLinkagePipeline/Pipeline/Classification/HeuristicClassifier.cs:57 | a non-negative price below 80 squares to at most 6400 |
| HeuristicClassifier.LowCostScoreMonotone | vagrant/RecordLinkagePipeline/Pipeline/Classification/HeuristicClassifier.cs:55-58 | the more a listing costs, the less its price counts against it |
| HeuristicClassifier.LowCostScoreCutoff | vagrant/RecordLinkagePipeline/Pipeline/Classification/HeuristicClassifier.cs:97 | a sixth of the price score stays above -10 exactly when the squared price exceeds 2560 |
| HeuristicClassifier.PlainTitleThreshold | vagrant/RecordLinkagePipeline/Pipeline/Classification/HeuristicClassifier.cs:48-106 | a title with no listed word is a camera exactly when the squared price exceeds 2560 (about 50.60), and scores exactly 100 from 80 up |
| HeuristicClassifier.ForPhraseWithoutCameraWords | vagrant/RecordLinkagePipeline/Pipeline/Classification/HeuristicClassifier.cs:48-106 | "for" after the first word with no camera word is never a camera at a non-negative price |
| HeuristicClassifier.CameraWithPhrase | vagrant/RecordLinkagePipeline/Pipeline/Classification/HeuristicClassifier.cs:48-106 | "camera with" as the last "with", at full price and without accessory words, is always a camera |
| HeuristicClassifier.TwoWordCameraWordNeverMatches | vagrant/RecordLinkagePipeline/Pipeline/Classification/HeuristicClassifier.cs:63-75 | the listed word "livré avec" holds a space, so it is never a white-space token and never scores |
| HeuristicClassifier.PlainCameraExample | vagrant/RecordLinkagePipeline/PipelineTests/Classification/HeuristicClassifierTests.cs:17 | "samsung pl210 black" at 153.99 is a camera |
| HeuristicClassifier.PlainCameraListingExample | vagrant/RecordLinkagePipeline/PipelineTests/Classification/HeuristicClassifierTests.cs:17 | the listing titled "samsung pl210 black" at 153.99 is classified as a camera, its tokens coming from the title through the white-space tokeniser |
| HeuristicClassifier.BatteryForCameraExample | vagrant/RecordLinkagePipeline/PipelineTests/Classification/HeuristicClassifierTests.cs:39 | "canon lp e6 battery for canon eos 5d mark ii 7d lpe6" at 54.88 is not a camera |
| DeterministicClassifier.LowCostScore | vagrant/RecordLinkagePipeline/Pipeline/Classification/DeterministicClassifier.cs:37-40 | the price score is never positive, is 0 exactly from 75 up, and is at least -100 for a non-negative price |
| DeterministicClassifier.LowCostScoreMonotone | vagrant/RecordLinkagePipeline/Pipeline/Classification/DeterministicClassifier.cs:38-40 | the more a listing costs, the less its price counts against it |
| DeterministicClassifier.AccessorySixth | vagrant/RecordLinkagePipeline/Pipeline/Classification/DeterministicClassifier.cs:79 | a sixth of the accessory-word score is 0, -3, -6 or -10 for 0 to 3 words found |
| DeterministicClassifier.PlainTitleThreshold | vagrant/RecordLinkagePipeline/Pipeline/Classification/DeterministicClassifier.cs:31-87 | a title with no listed word, "with" or "for" is a camera exactly when its price exceeds 30, and scores exactly 100 from 75 up |
| DeterministicClassifier.FullPriceVerdict | vagrant/RecordLinkagePipeline/Pipeline/Classification/DeterministicClassifier.cs:31-87 | at full price without phrase words a listing is a camera exactly when fewer than all three accessory words or some camera word occur |
| DeterministicClassifier.ForPhraseWithoutCameraWords | vagrant/RecordLinkagePipeline/Pipeline/Classification/DeterministicClassifier.cs:31-87 | "for" after the first word, with no camera word and no "with", is never a camera |
| DeterministicClassifier.CameraWithPhrase | vagrant/RecordLinkagePipeline/Pipeline/Classification/DeterministicClassifier.cs:31-87 | "camera with" as the last "with", at full price and without "for", is always a camera |
| DeterministicClassifier.AllAccessoryWordsOnThreshold | vagrant/RecordLinkagePipeline/Pipeline/Classification/DeterministicClassifier.cs:77-86 | at full price with all three accessory words and nothing else the score is exactly 90, which is not above the threshold |
| DeterministicClassifier.BodyBagBatteryTokens | vagrant/RecordLinkagePipeline/PipelineTests/Classification/DeterministicClassifierTests.cs:40 | the munged Nikon D300s title holds all accessory words, no camera word and no phrase word |
| DeterministicClassifier.BodyBagBatteryExample | vagrant/RecordLinkagePipeline/PipelineTests/Classification/DeterministicClassifierTests.cs:40 | the Nikon D300s kit at 1781.41 scores exactly 90 and is not a camera |
| DeterministicClassifier.BatteryForCameraExample | vagrant/RecordLinkagePipeline/PipelineTests/Classification/DeterministicClassifierTests.cs:42 | the Canon LP-E6 battery at 54.88 is not a camera |
| DeterministicClassifier.ThreeCameraWordsOutweighPrice | vagrant/RecordLinkagePipeline/Pipeline/Classification/DeterministicClassifier.cs:31-87 | three camera words make any non-negative price a camera when no accessory word and no "for" occur |
| DeterministicClassifier.CompactCameraTokensAbsent | vagrant/RecordLinkagePipeline/PipelineTests/Classification/DeterministicClassifierTests.cs:21 | the munged AgfaPhoto title holds no accessory word and no "for" |
| DeterministicClassifier.CompactCameraTokensPresent | vagrant/RecordLinkagePipeline/PipelineTests/Classification/DeterministicClassifierTests.cs:21 | it holds megapixel, zoom and digitalkamera |
| DeterministicClassifier.CompactCameraTokensMissing | vagrant/RecordLinkagePipeline/PipelineTests/Classification/DeterministicClassifierTests.cs:21 | it holds none of the other four camera words |
| DeterministicClassifier.ThreeCameraWordsPresent | vagrant/RecordLinkagePipeline/Pipeline/Classification/DeterministicClassifier.cs:54-58 | exactly three camera words are counted for such tokens |
| DeterministicClassifier.CompactCameraExample | vagrant/RecordLinkagePipeline/PipelineTests/Classification/DeterministicClassifierTests.cs:21 | the AgfaPhoto compact at 66.61 is a camera despite its low price |
| DeterministicAccessoryPruner.KeptMembership | vagrant/RecordLinkagePipeline/Pipeline/Pruning/DeterministicAccessoryPruner.cs:13-24 | a listing is kept exactly when it is an input listing whose title holds no marker, as many times as it occurs in the input |
| DeterministicAccessoryPruner.Prune | vagrant/RecordLinkagePipeline/Pipeline/Pruning/DeterministicAccessoryPruner.cs:11-26 | the kept listings are in input order and are exactly the input listings whose titles hold none of "accessory", "bag" and "case", each as many times as it occurs in the input |
| DeterministicAccessoryPruner.PruneAllOrNothing | vagrant/RecordLinkagePipeline/Pipeline/Pruning/DeterministicAccessoryPruner.cs:11-26 | nothing is dropped from listings without markers, and everything from listings that all hold one |
| DeterministicAccessoryPruner.InsideWordExample | vagrant/RecordLinkagePipeline/Pipeline/Pruning/DeterministicAccessoryPruner.cs:21 | "leather briefcase" is dropped: markers are found inside words |
| DeterministicAccessoryPruner.CaseMattersExample | vagrant/RecordLinkagePipeline/Pipeline/Pruning/DeterministicAccessoryPruner.cs:18 | "Bag" is kept: the comparison is by character |
| ListingParser.Remove | vagrant/RecordLinkagePipeline/Pipeline/Extraction/ListingParser.cs:17-24 | removing count characters at start fails with an out-of-range error exactly when the span leaves the string; otherwise the characters before start stay and the rest shift down by count |
| ListingParser.TrimStart | vagrant/RecordLinkagePipeline/Pipeline/Extraction/ListingParser.cs:22 | trimming the front leaves a suffix, and leaves the string whole exactly when it is empty or does not start with a trimmed character |
| ListingParser.TrimEnd | vagrant/RecordLinkagePipeline/Pipeline/Extraction/ListingParser.cs:22 | trimming the back leaves a prefix, and leaves the string whole exactly when it is empty or does not end with a trimmed character |
| ListingParser.Trim | vagrant/RecordLinkagePipeline/Pipeline/Extraction/ListingParser.cs:22 | trimming both ends leaves the string whole exactly when neither end is a trimmed character |
| ListingParser.PieceOk | vagrant/RecordLinkagePipeline/Pipeline/Extraction/ListingParser.cs:20-25 | a piece survives the projection exactly when it has at least two characters and neither end upper-cases to a new-line character (trimming would shorten it and the quote removal, sized on the untrimmed piece, would fail); a surviving piece is its upper-cased inside |
| ListingParser.PieceSurvives | vagrant/RecordLinkagePipeline/Pipeline/Extraction/ListingParser.cs:20-25 | a piece of two or more characters whose ends are not new-line characters yields its upper-cased inside |
| ListingParser.PieceFails | vagrant/RecordLinkagePipeline/Pipeline/Extraction/ListingParser.cs:20-25 | any other piece fails with an out-of-range error |
| ListingParser.RemoveLast | vagrant/RecordLinkagePipeline/Pipeline/Extraction/ListingParser.cs:17 | removing the last character of a non-empty string drops the closing bracket |
| ListingParser.RemoveFirst | vagrant/RecordLinkagePipeline/Pipeline/Extraction/ListingParser.cs:18 | removing the first character of a non-empty string drops the opening bracket |
| ListingParser.Pieces | vagrant/RecordLinkagePipeline/Pipeline/Extraction/ListingParser.cs:20-26 | the projection succeeds exactly when every piece survives, and then yields one inside per piece, in order; otherwise it fails out of range |
| ListingParser.StripBrackets | vagrant/RecordLinkagePipeline/Pipeline/Extraction/ListingParser.cs:16-18 | for a string of two or more characters both removals succeed and leave the string without its first and last character |
| ListingParser.ParseRangeFailures | vagrant/RecordLinkagePipeline/Pipeline/Extraction/ListingParser.cs:12-33 | a line shorter than two characters, a piece that does not survive, or fewer than eight pieces all make the parse fail out of range |
| ListingParser.ParseFields | vagrant/RecordLinkagePipeline/Pipeline/Extraction/ListingParser.cs:28-34 | otherwise title, manufacturer and currency are the insides of pieces 1, 3 and 5, and the price is the parse of piece 7, a format error when that parse fails |
| ListingParser.SplitField | vagrant/RecordLinkagePipeline/Pipeline/Extraction/ListingParser.cs:19 | a key and value without separators split into the two quoted words |
| ListingParser.PieceOfQuoted | vagrant/RecordLinkagePipeline/Pipeline/Extraction/ListingParser.cs:20-25 | a quoted word always survives as its upper-cased content |
| ListingParser.InsideQuoted | vagrant/RecordLinkagePipeline/Pipeline/Extraction/ListingParser.cs:23-24 | the inside of a quoted word is its upper-cased content |
| ListingParser.QuotedPieces | vagrant/RecordLinkagePipeline/Pipeline/Extraction/ListingParser.cs:20-26 | a list of quoted words always survives the projection |
| ListingParser.PiecesAppend | vagrant/RecordLinkagePipeline/Pipeline/Extraction/ListingParser.cs:20-26 | two lists that survive the projection survive it together |
| ListingParser.TailPieces | vagrant/RecordLinkagePipeline/Pipeline/Extraction/ListingParser.cs:19 | the manufacturer, currency and price fields split into their six quoted words |
| ListingParser.RenderInside | vagrant/RecordLinkagePipeline/Pipeline/Extraction/ListingParser.cs:16-18 | stripping the brackets of a rendered record leaves its fields joined by commas |
| ListingParser.RenderedPieces | vagrant/RecordLinkagePipeline/Pipeline/Extraction/ListingParser.cs:16-19 | a record whose values hold no comma or colon splits into its eight quoted keys and values |
| ListingParser.RenderedFields | vagrant/RecordLinkagePipeline/Pipeline/Extraction/ListingParser.cs:28-33 | in such a record the pieces 1, 3, 5 and 7 are the quoted title, manufacturer, currency and price |
| ListingParser.RenderedSurvives | vagrant/RecordLinkagePipeline/Pipeline/Extraction/ListingParser.cs:20-26 | every piece of such a record survives the projection |
| ListingParser.PairSurvives | vagrant/RecordLinkagePipeline/Pipeline/Extraction/ListingParser.cs:20-26 | a quoted key and value survive the projection |
| ListingParser.ParseRendered | vagrant/RecordLinkagePipeline/Pipeline/Extraction/ListingParser.cs:12-35 | a record rendered from values without commas or colons parses back to the upper-cased values, with the price parsed from its upper-cased text (a format error when it does not parse) and the original line left empty |
| ListingParser.SampleValuesHaveNoSeparator | vagrant/RecordLinkagePipeline/PipelineTests/Extraction/ListingParserTests.cs:14 | the sample values hold no comma or colon |
| ListingParser.SampleRecordExample | vagrant/RecordLinkagePipeline/PipelineTests/Extraction/ListingParserTests.cs:11-20 | the sample Canon PowerShot record parses to its upper-cased title, manufacturer and currency and the price 259.99 |
| ListingParser.SplitCommaTitle | vagrant/RecordLinkagePipeline/Pipeline/Extraction/ListingParser.cs:19 | a title holding a comma splits into three pieces, not two |
| ListingParser.CommaTitlePieces | vagrant/RecordLinkagePipeline/Pipeline/Extraction/ListingParser.cs:16-19 | a record whose title holds one comma splits into nine pieces, each later one shifted by one place |
| ListingParser.CommaTitleFields | vagrant/RecordLinkagePipeline/Pipeline/Extraction/ListingParser.cs:28-33 | in that record piece 1 is the opening quote and the text before the comma, and pieces 3, 5 and 7 are the quoted keys manufacturer, currency and price |
| ListingParser.CommaTitleSurvives | vagrant/RecordLinkagePipeline/Pipeline/Extraction/ListingParser.cs:20-26 | every piece of that record survives the projection |
| ListingParser.SplitPairSurvives | vagrant/RecordLinkagePipeline/Pipeline/Extraction/ListingParser.cs:20-26 | a quoted key and a value split at a comma survive the projection |
| ListingParser.OpenQuotedSurvives | vagrant/RecordLinkagePipeline/Pipeline/Extraction/ListingParser.cs:20-25 | the half of a value before its comma survives when its last character is not a new-line character |
| ListingParser.CloseQuotedSurvives | vagrant/RecordLinkagePipeline/Pipeline/Extraction/ListingParser.cs:20-25 | the half of a value after its comma survives when its first character is not a new-line character |
| ListingParser.InsideOpenQuoted | vagrant/RecordLinkagePipeline/Pipeline/Extraction/ListingParser.cs:23-24 | the inside of that first half loses its opening quote and its last character |
| ListingParser.CommaInTitleShiftsFields | vagrant/RecordLinkagePipeline/Pipeline/Extraction/ListingParser.cs:19-33 | a title holding a comma shifts the fields: the title becomes its text before the comma less its last character, the manufacturer and currency become the key words MANUFACTURER and CURRENCY, and the price is the parse of the word PRICE |

## Left out

- Reading and writing the product, listing and result files, the JSON readers and writers, the logger and the pipeline driver that wires the stages together: they are I/O around the modelled stages.
- Concurrency: the parallel queries and concurrent dictionaries of the alias generator are modelled as sequential loops; accumulation by addition does not depend on the order.
- Floating point: `float` and `decimal` values are exact reals, so rounding of float sums and of decimal division is not modelled.
- `Char.IsLetter`, `Char.IsNumber`, `Char.ToLower`, `ToUpperInvariant` and the culture rules behind them are the fields of a `TextInfo` parameter; only the ASCII instance used by the worked examples is written out.
- `Decimal.Parse` is a parameter of type `string -> Option<real>`; a failed parse is an error value rather than a `FormatException`.
- `Environment.NewLine` is a parameter of the listing parser's trimming, as it differs between platforms.
- `ProductModelMatcher.FindProductMatches`: `CalculateEntropy` (built on `Math.Log`) is a parameter of type `(seq<int>, int) -> real`, so the model proves the partition, the feasibility check and the tie-break for every entropy, not the values of the entropy itself.
- `ProductModelMatcher.FindProductMatches`: the `Debug.Assert` that both blocks share a key is a precondition; in a release build the source does not check it.
- `SimilarityAlias.CommonTokens`: the percentile of the token probabilities is a parameter; the model only relies on its being one of the probabilities.
- `SimilarityAlias.Generate`: the model score computed from token probabilities and model shingles, and the alias percentile, are parameters; `modelMatchScore < 0 + float.Epsilon` is modelled as a score of at most zero.
- Dictionary and HashSet enumeration order is modelled as the order of first insertion, and the listing grouper's second rule tries the canonical names in the order given; the source leaves both orders unspecified.
- Products in the matcher are identified by their position in the block, where the source compares references; two equal products are therefore never merged.
- `Listing.original` is left empty by the parser model, as the parser itself never sets it; the products' announced date is read by no modelled computation and is not part of the records.
- `ListingParser.Parse`: the `Debug.Assert` that the record is not empty is not a precondition; an empty or too short record is the `ArgumentOutOfRangeException` the release code raises.
- `DeterministicClassifier.ClassifyAsCamera`: the token probability map it receives is not consulted, as in the source.
- `TokenProbability.SevenTitlesExample`: the test calls an overload with a title selector that is not in the repository; the example takes the titles themselves as the documents.
- `HeuristicClassifier`: its tests call a four-argument constructor and an `IsCamera` method that are not in the repository; only the listings whose verdict follows from the shown scoring are stated as examples ("samsung pl210 black" and the LP-E6 battery).
- Worked examples start after field normalisation: the classifier examples take the title already in its field form (lower-case words separated by single spaces), and apart from `HeuristicClassifier.PlainCameraListingExample`, whose title is tokenised inside the proof, they take that title's tokens as written; the model matcher examples (`ProductModelMatcher.ThreePartModelExample`, `ProductModelMatcher.NumberThenLettersExample`) take the n-grams the listing shares with the model as written rather than computing them from the title. Replaying the normaliser and the n-gram generator on the long test titles is not part of the model.
- `DeterministicClassifier`: of the test listings, the AgfaPhoto camera and the Nikon D300s and LP-E6 accessories are stated as examples; the others are not.
- `WordFrequency.GetWordFrequency`: that the counts add up to the number of tokens is stated through the multiset of all tokens (each count equals that token's multiplicity), not as a sum over the map.
- The naive Bayes classifier, the token-probability-per-listing calculator, the manufacturer matcher and their tests are not part of this model.
