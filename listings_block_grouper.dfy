/**
 * Blocking listings by manufacturer (Pipeline/Matching/ManufacturerListingsBlockGrouper.cs):
 * each listing is sent, by the first of three rules that applies, to the
 * block of a catalogue manufacturer name, or set aside as unmatched.
 */
module ListingsBlockGrouper {
  import opened Outcomes
  import opened Seqs
  import opened Chars
  import opened Domain
  import opened StringExtensions
  import opened Grouping

  /**
   * The grouper's fixed state: the canonical manufacturer names (a HashSet
   * in the source, whose enumeration order is unspecified; here the order
   * given) and the alias dictionary from alias to canonical name.
   */
  datatype Grouper = Grouper(canonical: seq<string>, aliases: map<string, string>)

  /** ManufacturerNameListingsBlock: a canonical name and its listings. */
  type ListingsBlock = Block<string, Listing>

  /** aliases.ToDictionary(x => x.Alias, x => x.Canonical): one entry per
      alias, and a second alias with the same spelling is rejected. */
  function AliasMap(aliases: seq<ManufacturerNameAlias>): (r: Result<map<string, string>>)
    ensures r.Err? ==> r.error == DuplicateKey
  {
    if aliases == [] then Ok(map[])
    else
      match AliasMap(aliases[..|aliases| - 1])
      case Err(e) => Err(e)
      case Ok(m) =>
        var a := aliases[|aliases| - 1];
        if a.alias in m then Err(DuplicateKey) else Ok(m[a.alias := a.canonical])
  }

  /** Building the dictionary fails exactly when two aliases share a
      spelling; otherwise it maps each alias to its canonical name and
      holds nothing else. */
  lemma {:induction false} AliasMapSpec(aliases: seq<ManufacturerNameAlias>)
    ensures AliasMap(aliases).Err? <==> exists i, j :: 0 <= i < j < |aliases| && aliases[i].alias == aliases[j].alias
    ensures AliasMap(aliases).Ok? ==> forall i :: 0 <= i < |aliases| ==>
      aliases[i].alias in AliasMap(aliases).value && AliasMap(aliases).value[aliases[i].alias] == aliases[i].canonical
    ensures AliasMap(aliases).Ok? ==> forall k :: k in AliasMap(aliases).value ==>
      exists i :: 0 <= i < |aliases| && aliases[i].alias == k
  {
    if aliases != [] {
      var init, a := aliases[..|aliases| - 1], aliases[|aliases| - 1];
      AliasMapSpec(init);
      assert forall i :: 0 <= i < |init| ==> init[i] == aliases[i];
      if AliasMap(init).Ok? && a.alias in AliasMap(init).value {
        var i :| 0 <= i < |init| && init[i].alias == a.alias;
        assert aliases[i].alias == aliases[|aliases| - 1].alias;
      }
      if exists i, j :: 0 <= i < j < |aliases| && aliases[i].alias == aliases[j].alias {
        var i, j :| 0 <= i < j < |aliases| && aliases[i].alias == aliases[j].alias;
        if j < |init| {
          assert init[i].alias == init[j].alias;
        } else if AliasMap(init).Ok? {
          assert init[i].alias in AliasMap(init).value;
        }
      }
    }
  }

  /** The constructor: the canonical names as given and the alias
      dictionary, unless two aliases share a spelling. */
  function NewGrouper(canonicalManufacturerNames: seq<string>, aliases: seq<ManufacturerNameAlias>): (r: Result<Grouper>)
    ensures r.Ok? ==> r.value.canonical == canonicalManufacturerNames
  {
    match AliasMap(aliases)
    case Err(e) => Err(e)
    case Ok(m) => Ok(Grouper(canonicalManufacturerNames, m))
  }

  /** Rule 1's test: the token is a canonical name. */
  function IsCanonical(g: Grouper): string -> bool {
    t => t in g.canonical
  }

  /** Rule 2's test: a canonical name of several tokens sharing a token
      with the listing's manufacturer. */
  function SharesToken(listingTokens: seq<string>): string -> bool {
    c => var ct := TokenizeOnWhiteSpace(c); |ct| > 1 && exists t :: t in ct && t in listingTokens
  }

  /**
   * The block a listing goes to: (1) the first manufacturer token that is
   * a canonical name; else (2) the first canonical name of several tokens
   * sharing a token with the manufacturer; else (3) the canonical name the
   * whole manufacturer string is an alias of; else none.
   */
  function Route(g: Grouper, listing: Listing): Option<string> {
    var tokens := TokenizeOnWhiteSpace(listing.manufacturer);
    match First(tokens, IsCanonical(g))
    case Some(c) => Some(c)
    case None =>
      match First(g.canonical, SharesToken(tokens))
      case Some(c) => Some(c)
      case None =>
        if listing.manufacturer in g.aliases then Some(g.aliases[listing.manufacturer]) else None
  }

  function Router(g: Grouper): Listing -> Option<string> {
    l => Route(g, l)
  }

  /** The three rules for one listing, with their loops and breaks. */
  method RouteListing(g: Grouper, listing: Listing) returns (found: Option<string>)
    ensures found == Route(g, listing)
  {
    // 1) a manufacturer token that is a canonical name
    var listingTokens := TokenizeOnWhiteSpace(listing.manufacturer);
    var i := 0;
    while i < |listingTokens|
      invariant 0 <= i <= |listingTokens|
      invariant First(listingTokens, IsCanonical(g)) == First(listingTokens[i..], IsCanonical(g))
    {
      if listingTokens[i] in g.canonical {
        assert listingTokens[i..][0] == listingTokens[i];
        return Some(listingTokens[i]);
      }
      FirstSkip(listingTokens, IsCanonical(g), i);
      i := i + 1;
    }
    // 2) a canonical name of several tokens sharing one with the listing
    var j := 0;
    while j < |g.canonical|
      invariant 0 <= j <= |g.canonical|
      invariant First(g.canonical, SharesToken(listingTokens)) == First(g.canonical[j..], SharesToken(listingTokens))
    {
      var canonical := g.canonical[j];
      var canonicalTokens := TokenizeOnWhiteSpace(canonical);
      if |canonicalTokens| > 1 && exists t :: t in canonicalTokens && t in listingTokens {
        assert g.canonical[j..][0] == canonical;
        return Some(canonical);
      }
      FirstSkip(g.canonical, SharesToken(listingTokens), j);
      j := j + 1;
    }
    // 3) the whole manufacturer string is a known alias
    if listing.manufacturer in g.aliases {
      return Some(g.aliases[listing.manufacturer]);
    }
    return None;
  }

  /** Match: route every listing, filing it under its block or adding it
      to the unmatched list; returns the blocks and the unmatched list. */
  method Match(g: Grouper, toMatch: seq<Listing>) returns (blocks: seq<ListingsBlock>, unmatched: seq<Listing>)
    ensures blocks == Blocks(toMatch, Router(g))
    ensures unmatched == Unkeyed(toMatch, Router(g))
  {
    var matches := new BlockTable<string, Listing>();
    unmatched := [];
    for i := 0 to |toMatch|
      invariant Tabulates(matches.order, matches.lists, toMatch[..i], Router(g))
      invariant unmatched == Unkeyed(toMatch[..i], Router(g))
    {
      var listing := toMatch[i];
      TakeSnoc(toMatch, i);
      ghost var order, lists := matches.order, matches.lists;
      var found := RouteListing(g, listing);
      if found.Some? {
        matches.Add(found.value, listing);
      } else {
        unmatched := unmatched + [listing];
      }
      TabulatesSnoc(order, lists, toMatch[..i], listing, Router(g), matches.order, matches.lists);
      FilterSnoc(toMatch[..i], listing, HasNoKey(Router(g)));
    }
    assert toMatch[..|toMatch|] == toMatch;
    TableBlocksAre(matches.lists, toMatch, Router(g), matches.order);
    blocks := TableBlocks(matches.order, matches.lists);
  }

  /**
   * Every listing lands in exactly one place: in the unmatched list when
   * no rule routes it, otherwise in the one block named by its route.
   * Block names are distinct, no block is empty, blocks and the unmatched
   * list keep input order, and together they hold every listing.
   */
  lemma ListingsPartition(g: Grouper, toMatch: seq<Listing>)
    ensures var bs, unmatched := Blocks(toMatch, Router(g)), Unkeyed(toMatch, Router(g));
      && (forall x :: x in unmatched <==> x in toMatch && Route(g, x).None?)
      && IsSubsequence(unmatched, toMatch)
      && (forall i, j :: 0 <= i < j < |bs| ==> bs[i].key != bs[j].key)
      && (forall i :: 0 <= i < |bs| ==> bs[i].members != [] && IsSubsequence(bs[i].members, toMatch))
      && (forall i, x :: 0 <= i < |bs| ==> (x in bs[i].members <==> x in toMatch && Route(g, x) == Some(bs[i].key)))
      && (forall x :: x in toMatch && Route(g, x).Some? ==> exists i :: 0 <= i < |bs| && bs[i].key == Route(g, x).value)
      && Size(bs) + |unmatched| == |toMatch|
  {
    BlocksPartition(toMatch, Router(g));
  }

  /** Rule 1: the first manufacturer token that is a canonical name decides. */
  lemma Rule1(g: Grouper, listing: Listing, i: nat)
    requires var tokens := TokenizeOnWhiteSpace(listing.manufacturer);
      && i < |tokens| && tokens[i] in g.canonical
      && forall j :: 0 <= j < i ==> tokens[j] !in g.canonical
    ensures Route(g, listing) == Some(TokenizeOnWhiteSpace(listing.manufacturer)[i])
  {
    FirstAt(TokenizeOnWhiteSpace(listing.manufacturer), IsCanonical(g), i);
  }

  /** Rule 2, when no token is a canonical name: the first canonical name of
      several tokens that shares a token with the manufacturer decides. */
  lemma Rule2(g: Grouper, listing: Listing, i: nat)
    requires var tokens := TokenizeOnWhiteSpace(listing.manufacturer);
      && (forall t :: t in tokens ==> t !in g.canonical)
      && i < |g.canonical| && SharesToken(tokens)(g.canonical[i])
      && forall j :: 0 <= j < i ==> !SharesToken(tokens)(g.canonical[j])
    ensures Route(g, listing) == Some(g.canonical[i])
  {
    var tokens := TokenizeOnWhiteSpace(listing.manufacturer);
    assert forall j :: 0 <= j < |tokens| ==> !IsCanonical(g)(tokens[j]);
    FirstAt(g.canonical, SharesToken(tokens), i);
  }

  /** Rule 3, when rules 1 and 2 do not apply: the whole manufacturer
      string, looked up as an alias; no entry leaves the listing unmatched. */
  lemma Rule3(g: Grouper, listing: Listing)
    requires var tokens := TokenizeOnWhiteSpace(listing.manufacturer);
      && (forall t :: t in tokens ==> t !in g.canonical)
      && forall c :: c in g.canonical ==> !SharesToken(tokens)(c)
    ensures listing.manufacturer in g.aliases ==> Route(g, listing) == Some(g.aliases[listing.manufacturer])
    ensures listing.manufacturer !in g.aliases ==> Route(g, listing) == None
  {
    var tokens := TokenizeOnWhiteSpace(listing.manufacturer);
    assert forall j :: 0 <= j < |tokens| ==> !IsCanonical(g)(tokens[j]);
    assert forall j :: 0 <= j < |g.canonical| ==> !SharesToken(tokens)(g.canonical[j]);
  }

  /** A single routed listing makes a single block. */
  lemma SingleListing(g: Grouper, l: Listing, k: string)
    requires Route(g, l) == Some(k)
    ensures Blocks([l], Router(g)) == [Block(k, [l])]
    ensures Unkeyed([l], Router(g)) == []
  {
    assert [l][..0] == [];
    assert Keys([l], Router(g)) == [k];
    assert Filter([l], HasKey(Router(g), k)) == [l];
    assert Filter([l], HasNoKey(Router(g))) == [];
    assert BlocksOf([l], Router(g), [k])[..0] == [];
  }

  /** ManufacturerListingsBlockGrouperTests: "A A A" against A, B and C is
      blocked under "A". */
  lemma RepeatedTokenExample(a: string, b: string, c: string, l: Listing)
    requires a == "A" && b == "B" && c == "C"
    requires l.manufacturer == Join([a, a, a], ' ')
    ensures Blocks([l], Router(Grouper([a, b, c], map[]))) == [Block(a, [l])]
    ensures Unkeyed([l], Router(Grouper([a, b, c], map[]))) == []
  {
    var g := Grouper([a, b, c], map[]);
    assert NoSeparator(a, IsWhiteSpace);
    SplitJoin([a, a, a], ' ', IsWhiteSpace);
    Rule1(g, l, 0);
    SingleListing(g, l, a);
  }

  /** "konica minolta" is blocked under the two-word canonical name by rule 2. */
  lemma MultiWordExample(konica: string, minolta: string, l: Listing)
    requires konica == "konica" && minolta == "minolta"
    requires l.manufacturer == Join([konica, minolta], ' ')
    ensures var name := Join([konica, minolta], ' ');
      Blocks([l], Router(Grouper([name], map[]))) == [Block(name, [l])]
  {
    var name := Join([konica, minolta], ' ');
    var g := Grouper([name], map[]);
    assert NoSeparator(konica, IsWhiteSpace) && NoSeparator(minolta, IsWhiteSpace);
    SplitJoin([konica, minolta], ' ', IsWhiteSpace);
    var tokens := [konica, minolta];
    assert |name| > |konica| && |name| > |minolta|;
    assert forall t :: t in tokens ==> t !in g.canonical;
    assert SharesToken(tokens)(name) by {
      assert konica in TokenizeOnWhiteSpace(name) && konica in tokens;
    }
    Rule2(g, l, 0);
    SingleListing(g, l, name);
  }

  /** A listing under an alias is blocked under the alias's canonical name. */
  lemma AliasExample(canonical: string, foo: string, bar: string, alias: string, l: Listing)
    requires canonical == "Real" && foo == "Foo" && bar == "Bar" && alias == "Alias"
    requires l.manufacturer == alias
    ensures AliasMap([ManufacturerNameAlias(canonical, alias)]) == Ok(map[alias := canonical])
    ensures Blocks([l], Router(Grouper([canonical, foo, bar], map[alias := canonical]))) == [Block(canonical, [l])]
  {
    assert [ManufacturerNameAlias(canonical, alias)][..0] == [];
    var g := Grouper([canonical, foo, bar], map[alias := canonical]);
    forall s | s in [alias, canonical, foo, bar] ensures TokenizeOnWhiteSpace(s) == [s] {
      assert NoSeparator(s, IsWhiteSpace);
      SplitWithoutSeparator(s, IsWhiteSpace);
    }
    Rule3(g, l);
    SingleListing(g, l, canonical);
  }
}
