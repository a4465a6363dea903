/** The records the pipeline passes between its stages. */
module Domain {
  import opened Outcomes

  /** A retailer's offer: who makes the item, how it is described and what it costs. */
  datatype Listing = Listing(
    manufacturer: string,
    title: string,
    currencyCode: Option<string>,   // null in the source when absent
    price: real,                    // System.Decimal
    original: string)

  /** A catalogue entry; the family is optional. */
  datatype Product = Product(
    name: string,
    manufacturer: string,
    model: string,
    family: Option<string>,         // null in the source when absent
    original: string)

  /** A product together with the listings resolved to it. */
  datatype ProductMatch = ProductMatch(product: Product, listings: seq<Listing>)

  /** A manufacturer spelling (alias) and the catalogue name it stands for. */
  datatype ManufacturerNameAlias = ManufacturerNameAlias(canonical: string, alias: string)

  /** How many units of the destination currency one unit of the source buys. */
  datatype ExchangeRate = ExchangeRate(
    sourceCurrencyCode: string,
    destinationCurrencyCode: string,
    rate: real)
}
