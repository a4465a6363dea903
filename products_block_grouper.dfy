/** Blocking the catalogue by manufacturer name (Pipeline/Matching/ManufacturerProductsBlockGrouper.cs). */
module ProductsBlockGrouper {
  import opened Outcomes
  import opened Seqs
  import opened Domain
  import opened Grouping

  /** ManufacturerNameProductsBlock: a manufacturer name and its products. */
  type ProductsBlock = Block<string, Product>

  /** Every product is filed under its own manufacturer name. */
  function ManufacturerOf(p: Product): Option<string> {
    Some(p.manufacturer)
  }

  /**
   * Match as a value: a block per distinct manufacturer name, in order of
   * first appearance (the Dictionary's insertion order), unless the block
   * constructor rejects an empty name.
   */
  function ProductBlocks(products: seq<Product>): Result<seq<ProductsBlock>> {
    var bs := Blocks(products, ManufacturerOf);
    if exists j :: 0 <= j < |bs| && bs[j].key == "" then Err(ArgumentNull) else Ok(bs)
  }

  /** Match: file every product, then build a block per name. The
      canonical names are accepted and not used. */
  method Match(productsToMatch: seq<Product>, canonicalManufacturerNames: seq<string>)
    returns (r: Result<seq<ProductsBlock>>)
    ensures r == ProductBlocks(productsToMatch)
  {
    var matched := new BlockTable<string, Product>();
    for i := 0 to |productsToMatch|
      invariant Tabulates(matched.order, matched.lists, productsToMatch[..i], ManufacturerOf)
    {
      var toMatch := productsToMatch[i];
      TakeSnoc(productsToMatch, i);
      ghost var order, lists := matched.order, matched.lists;
      matched.Add(toMatch.manufacturer, toMatch);
      TabulatesSnoc(order, lists, productsToMatch[..i], toMatch, ManufacturerOf, matched.order, matched.lists);
    }
    assert productsToMatch[..|productsToMatch|] == productsToMatch;
    TableBlocksAre(matched.lists, productsToMatch, ManufacturerOf, matched.order);
    BlockKeysAre(productsToMatch, ManufacturerOf);
    r := NewBlocks(matched.order, matched.lists);
  }

  /** The projection of the filled table into blocks; the block
      constructor rejects an empty name. */
  method NewBlocks(order: seq<string>, lists: map<string, seq<Product>>) returns (r: Result<seq<ProductsBlock>>)
    requires forall k :: k in order ==> k in lists
    ensures r == if "" in order then Err(ArgumentNull) else Ok(TableBlocks(order, lists))
  {
    var blocks: seq<ProductsBlock> := [];
    for j := 0 to |order|
      invariant blocks == TableBlocks(order[..j], lists)
      invariant "" !in order[..j]
    {
      var name := order[j];
      if name == "" {
        assert order[j] in order;
        return Err(ArgumentNull);
      }
      assert order[..j + 1][..j] == order[..j];
      blocks := blocks + [Block(name, lists[name])];
    }
    assert order[..|order|] == order;
    r := Ok(blocks);
  }

  /** Match fails, with ArgumentNullException, exactly when some product
      has an empty manufacturer name. */
  lemma EmptyManufacturerThrows(products: seq<Product>)
    ensures ProductBlocks(products).Err? <==> exists i :: 0 <= i < |products| && products[i].manufacturer == ""
    ensures ProductBlocks(products).Err? ==> ProductBlocks(products).error == ArgumentNull
  {
    var bs := Blocks(products, ManufacturerOf);
    if exists i :: 0 <= i < |products| && products[i].manufacturer == "" {
      var i :| 0 <= i < |products| && products[i].manufacturer == "";
      var j := BlockIndexOf(products, ManufacturerOf, products[i]);
      assert bs[j].key == "";
    }
    if exists j :: 0 <= j < |bs| && bs[j].key == "" {
      var j :| 0 <= j < |bs| && bs[j].key == "";
      BlockAt(products, ManufacturerOf, j);
      var x := bs[j].members[0];
      var i :| 0 <= i < |products| && products[i] == x;
      assert products[i].manufacturer == "";
    }
  }

  /**
   * Each product lies in exactly one block, the one named after its
   * manufacturer; names are distinct; no block is empty; a block keeps
   * its products in input order; the blocks hold all the products.
   */
  lemma ProductBlocksPartition(products: seq<Product>)
    requires ProductBlocks(products).Ok?
    ensures var bs := ProductBlocks(products).value;
      && (forall i, j :: 0 <= i < j < |bs| ==> bs[i].key != bs[j].key)
      && (forall i :: 0 <= i < |bs| ==> bs[i].members != [] && IsSubsequence(bs[i].members, products))
      && (forall i, p :: 0 <= i < |bs| ==> (p in bs[i].members <==> p in products && p.manufacturer == bs[i].key))
      && (forall p :: p in products ==> exists i :: 0 <= i < |bs| && bs[i].key == p.manufacturer)
      && Size(bs) == |products|
  {
    var bs := Blocks(products, ManufacturerOf);
    BlockKeysDistinct(products, ManufacturerOf);
    forall i | 0 <= i < |bs|
      ensures bs[i].members != [] && IsSubsequence(bs[i].members, products)
      ensures forall p :: p in bs[i].members <==> p in products && p.manufacturer == bs[i].key
    {
      BlockAt(products, ManufacturerOf, i);
      FilterIsSubsequence(products, HasKey(ManufacturerOf, bs[i].key));
    }
    forall p | p in products
      ensures exists i :: 0 <= i < |bs| && bs[i].key == p.manufacturer
    {
      var i := BlockIndexOf(products, ManufacturerOf, p);
    }
    BlocksSize(products, ManufacturerOf);
    AllKeyed(products, ManufacturerOf);
  }
}
