/** The catalogue's manufacturer names (Pipeline/Analysis/CanonicalManufacturerNameGenerator.cs). */
module CanonicalNames {
  import opened Domain

  /** Generate: the set of every product's Manufacturer. */
  function Generate(products: seq<Product>): (names: set<string>)
    ensures forall p :: p in products ==> p.manufacturer in names
    ensures forall n :: n in names ==> exists p :: p in products && p.manufacturer == n
    ensures products == [] ==> names == {}
  {
    set p | p in products :: p.manufacturer
  }

  /** There are no more names than products. */
  lemma {:induction false} GenerateSize(products: seq<Product>)
    ensures |Generate(products)| <= |products|
  {
    if products != [] {
      var rest, last := products[..|products| - 1], products[|products| - 1];
      assert products == rest + [last];
      GenerateSize(rest);
      GenerateSnoc(rest, last);
    }
  }

  lemma GenerateSnoc(rest: seq<Product>, last: Product)
    ensures Generate(rest + [last]) == Generate(rest) + {last.manufacturer}
  {
    var ps := rest + [last];
    forall n | n in Generate(ps)
      ensures n in Generate(rest) + {last.manufacturer}
    {
      var p :| p in ps && p.manufacturer == n;
      if p != last {
        assert p in rest;
      }
    }
    assert last in ps;
    assert forall p :: p in rest ==> p in ps;
  }
}
