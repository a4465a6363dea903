/**
 * The hand-rolled listing record splitter
 * (Pipeline/Extraction/ListingParser.cs).
 *
 * A record such as {"title":"...","manufacturer":"...","currency":"...",
 * "price":"..."} loses its first and last characters, is cut at every ','
 * and ':', and each piece is upper-cased, trimmed of the new-line
 * characters and loses its first and last characters (the quotes). Pieces
 * 1, 3, 5 and 7 are the title, the manufacturer, the currency code and the
 * price. Every failure of String.Remove and of the list indexer is the
 * ArgumentOutOfRange error; a price that does not parse is the Format error.
 */
module ListingParser {
  import opened Outcomes
  import opened Chars
  import opened Seqs
  import opened Domain
  import opened StringExtensions

  /** String.Remove(start, count): the string without the block of count
      characters from start, or ArgumentOutOfRange when that block does not
      lie inside the string. */
  function Remove(s: string, start: int, count: int): (r: Result<string>)
    ensures r.Err? <==> start < 0 || count < 0 || start + count > |s|
    ensures r.Err? ==> r.error == ArgumentOutOfRange
    ensures r.Ok? ==> |r.value| == |s| - count
    ensures r.Ok? ==> forall i :: 0 <= i < start ==> r.value[i] == s[i]
    ensures r.Ok? ==> forall i :: start <= i < |r.value| ==> r.value[i] == s[i + count]
  {
    if start < 0 || count < 0 || start + count > |s| then Err(ArgumentOutOfRange)
    else Ok(s[..start] + s[start + count..])
  }

  /** String.ToUpperInvariant, character by character. */
  function Upper(ti: TextInfo, s: string): string {
    seq(|s|, i requires 0 <= i < |s| => ti.toUpper(s[i]))
  }

  /** The leading characters that are among chars removed. */
  function TrimStart(s: string, chars: string): (r: string)
    ensures |r| <= |s| && r == s[|s| - |r|..]
    ensures |r| == |s| <==> s == [] || s[0] !in chars
  {
    if s != [] && s[0] in chars then TrimStart(s[1..], chars) else s
  }

  /** The trailing characters that are among chars removed. */
  function TrimEnd(s: string, chars: string): (r: string)
    ensures |r| <= |s| && r == s[..|r|]
    ensures |r| == |s| <==> s == [] || s[|s| - 1] !in chars
  {
    if s != [] && s[|s| - 1] in chars then TrimEnd(s[..|s| - 1], chars) else s
  }

  /** String.Trim(chars): both ends trimmed; nothing is lost exactly when
      neither end character is among chars. */
  function Trim(s: string, chars: string): (r: string)
    ensures |r| <= |s|
    ensures |r| == |s| <==> s == [] || (s[0] !in chars && s[|s| - 1] !in chars)
    ensures |r| == |s| ==> r == s
  {
    TrimEnd(TrimStart(s, chars), chars)
  }

  /** The record's field and value separators. */
  predicate IsFieldSeparator(c: char) {
    c == ',' || c == ':'
  }

  /**
   * The projection applied to every piece: upper-case, trim the characters
   * of Environment.NewLine, remove the character at the piece's original last
   * position, then the first one.
   */
  function Piece(ti: TextInfo, newLine: string, x: string): Result<string> {
    var t := Trim(Upper(ti, x), newLine);
    match Remove(t, |x| - 1, 1)
    case Err(e) => Err(e)
    case Ok(u) => Remove(u, 0, 1)
  }

  /** The upper-cased piece without its end characters. */
  function Inside(ti: TextInfo, x: string): string
    requires |x| >= 2
  {
    Upper(ti, x)[1..|x| - 1]
  }

  /**
   * A piece survives the projection exactly when it has two characters or
   * more and trimming takes nothing off its upper-cased ends; what is left
   * is its upper-cased inside.
   */
  lemma PieceOk(ti: TextInfo, newLine: string, x: string)
    ensures Piece(ti, newLine, x).Ok? <==>
      |x| >= 2 && ti.toUpper(x[0]) !in newLine && ti.toUpper(x[|x| - 1]) !in newLine
    ensures Piece(ti, newLine, x).Err? ==> Piece(ti, newLine, x).error == ArgumentOutOfRange
    ensures Piece(ti, newLine, x).Ok? ==> Piece(ti, newLine, x).value == Inside(ti, x)
  {
    if |x| >= 2 && ti.toUpper(x[0]) !in newLine && ti.toUpper(x[|x| - 1]) !in newLine {
      PieceSurvives(ti, newLine, x);
    } else {
      PieceFails(ti, newLine, x);
    }
  }

  lemma PieceSurvives(ti: TextInfo, newLine: string, x: string)
    requires |x| >= 2 && ti.toUpper(x[0]) !in newLine && ti.toUpper(x[|x| - 1]) !in newLine
    ensures Piece(ti, newLine, x) == Ok(Inside(ti, x))
  {
    var up := Upper(ti, x);
    assert |up| == |x| && up[0] == ti.toUpper(x[0]) && up[|up| - 1] == ti.toUpper(x[|x| - 1]);
    assert Trim(up, newLine) == up;
    RemoveLast(up);
    RemoveFirst(up[..|x| - 1]);
    assert up[..|x| - 1][1..] == up[1..|x| - 1];
  }

  lemma PieceFails(ti: TextInfo, newLine: string, x: string)
    requires !(|x| >= 2 && ti.toUpper(x[0]) !in newLine && ti.toUpper(x[|x| - 1]) !in newLine)
    ensures Piece(ti, newLine, x) == Err(ArgumentOutOfRange)
  {
    var t := Trim(Upper(ti, x), newLine);
    if |x| >= 2 {
      assert |t| < |x|;
    } else if |x| == 1 && |t| == 1 {
      RemoveLast(t);
    }
  }

  /** Removing the last character of a non-empty string. */
  lemma RemoveLast(s: string)
    requires |s| >= 1
    ensures Remove(s, |s| - 1, 1) == Ok(s[..|s| - 1])
  {
    assert s[..|s| - 1] + s[|s|..] == s[..|s| - 1];
  }

  /** Removing the first character of a non-empty string. */
  lemma RemoveFirst(s: string)
    requires |s| >= 1
    ensures Remove(s, 0, 1) == Ok(s[1..])
  {
    assert s[..0] + s[1..] == s[1..];
  }

  /** Select(...).ToList(): every piece projected, or the failure of the
      first piece that does not survive. */
  function Pieces(ti: TextInfo, newLine: string, raw: seq<string>): (r: Result<seq<string>>)
    ensures r.Ok? <==> forall i :: 0 <= i < |raw| ==> Piece(ti, newLine, raw[i]).Ok?
    ensures r.Err? ==> r.error == ArgumentOutOfRange
    ensures r.Ok? ==> |r.value| == |raw| && forall i :: 0 <= i < |raw| ==> Ok(r.value[i]) == Piece(ti, newLine, raw[i])
  {
    if exists i :: 0 <= i < |raw| && Piece(ti, newLine, raw[i]).Err? then Err(ArgumentOutOfRange)
    else Ok(seq(|raw|, i requires 0 <= i < |raw| => Piece(ti, newLine, raw[i]).value))
  }

  /** The raw pieces of a record: its inside cut at every separator. */
  function RawPieces(str: string): seq<string>
    requires |str| >= 2
  {
    Split(str[1..|str| - 1], IsFieldSeparator)
  }

  /**
   * Parse. The upper-casing table and the platform's new-line characters
   * are parameters, and so is Decimal.Parse (None when the text is not a
   * number). The listing's original text is not set.
   */
  function Parse(ti: TextInfo, newLine: string, parse: string -> Option<real>, str: string): Result<Listing> {
    match Remove(str, |str| - 1, 1)
    case Err(e) => Err(e)
    case Ok(s1) =>
      match Remove(s1, 0, 1)
      case Err(e) => Err(e)
      case Ok(s2) =>
        match Pieces(ti, newLine, Split(s2, IsFieldSeparator))
        case Err(e) => Err(e)
        case Ok(fields) =>
          if |fields| < 8 then Err(ArgumentOutOfRange)
          else
            match parse(fields[7])
            case None => Err(Format)
            case Some(price) => Ok(Listing(fields[3], fields[1], Some(fields[5]), price, ""))
  }

  /** Removing the last and then the first character leaves the inside. */
  lemma StripBrackets(str: string)
    requires |str| >= 2
    ensures Remove(str, |str| - 1, 1).Ok?
    ensures Remove(Remove(str, |str| - 1, 1).value, 0, 1) == Ok(str[1..|str| - 1])
  {
    RemoveLast(str);
    RemoveFirst(str[..|str| - 1]);
    assert str[..|str| - 1][1..] == str[1..|str| - 1];
  }

  /** A record too short to lose its brackets, a piece that does not
      survive the projection, or fewer than eight pieces: the
      ArgumentOutOfRange error. */
  lemma ParseRangeFailures(ti: TextInfo, newLine: string, parse: string -> Option<real>, str: string)
    ensures |str| < 2 ==> Parse(ti, newLine, parse, str) == Err(ArgumentOutOfRange)
    ensures |str| >= 2 && (Pieces(ti, newLine, RawPieces(str)).Err? || |RawPieces(str)| < 8) ==>
      Parse(ti, newLine, parse, str) == Err(ArgumentOutOfRange)
  {
    if |str| >= 2 {
      StripBrackets(str);
    }
  }

  /**
   * Otherwise the listing holds the upper-cased insides of pieces 1, 3, 5
   * and 7 as title, manufacturer, currency code and price text, and fails
   * only when that price text does not parse.
   */
  lemma ParseFields(ti: TextInfo, newLine: string, parse: string -> Option<real>, str: string)
    requires |str| >= 2 && Pieces(ti, newLine, RawPieces(str)).Ok? && |RawPieces(str)| >= 8
    ensures var raw := RawPieces(str);
      |raw[1]| >= 2 && |raw[3]| >= 2 && |raw[5]| >= 2 && |raw[7]| >= 2
    ensures var raw := RawPieces(str);
      Parse(ti, newLine, parse, str) ==
        match parse(Inside(ti, raw[7]))
        case None => Err(Format)
        case Some(price) => Ok(Listing(Inside(ti, raw[3]), Inside(ti, raw[1]), Some(Inside(ti, raw[5])), price, ""))
  {
    StripBrackets(str);
    var raw := RawPieces(str);
    PieceOk(ti, newLine, raw[1]);
    PieceOk(ti, newLine, raw[3]);
    PieceOk(ti, newLine, raw[5]);
    PieceOk(ti, newLine, raw[7]);
  }

  /** A value between double quotes. */
  function Quoted(s: string): string {
    "\"" + s + "\""
  }

  /** "key":"value". */
  function Field(key: string, value: string): string {
    Quoted(key) + ":" + Quoted(value)
  }

  /** The fields after the title. */
  function Tail(manufacturer: string, currency: string, price: string): string {
    Field("manufacturer", manufacturer) + "," + Field("currency", currency) + "," + Field("price", price)
  }

  /** The record as the listing file writes it. */
  function Render(title: string, manufacturer: string, currency: string, price: string): string {
    "{" + Field("title", title) + "," + Tail(manufacturer, currency, price) + "}"
  }

  predicate NoFieldSeparator(s: string) {
    NoSeparator(s, IsFieldSeparator)
  }

  /** A field whose key and value hold no separator is cut into its quoted
      key and its quoted value. */
  lemma SplitField(key: string, value: string)
    requires NoFieldSeparator(key) && NoFieldSeparator(value)
    ensures Split(Field(key, value), IsFieldSeparator) == [Quoted(key), Quoted(value)]
  {
    SplitAt(Quoted(key), ':', Quoted(value), IsFieldSeparator);
    SplitWithoutSeparator(Quoted(key), IsFieldSeparator);
    SplitWithoutSeparator(Quoted(value), IsFieldSeparator);
  }

  /** A quoted text survives the projection as its upper-cased self when the
      upper-cased quote is not a new-line character. */
  lemma PieceOfQuoted(ti: TextInfo, newLine: string, s: string)
    requires ti.toUpper('"') !in newLine
    ensures Piece(ti, newLine, Quoted(s)) == Ok(Upper(ti, s))
  {
    PieceOk(ti, newLine, Quoted(s));
    InsideQuoted(ti, s);
  }

  /** The inside of a quoted text is the upper-cased text. */
  lemma InsideQuoted(ti: TextInfo, s: string)
    ensures Inside(ti, Quoted(s)) == Upper(ti, s)
  {
  }

  /** The four keys hold no separator. */
  lemma KeysHaveNoSeparator()
    ensures NoFieldSeparator("title") && NoFieldSeparator("manufacturer")
    ensures NoFieldSeparator("currency") && NoFieldSeparator("price")
  {
  }

  /** Every text of a list between double quotes. */
  function QuoteAll(ws: seq<string>): (r: seq<string>)
    ensures |r| == |ws| && forall i :: 0 <= i < |ws| ==> r[i] == Quoted(ws[i])
  {
    seq(|ws|, i requires 0 <= i < |ws| => Quoted(ws[i]))
  }

  /** Every quoted text of a list survives the projection. */
  lemma QuotedPieces(ti: TextInfo, newLine: string, ws: seq<string>)
    requires ti.toUpper('"') !in newLine
    ensures Pieces(ti, newLine, QuoteAll(ws)).Ok?
  {
    forall i | 0 <= i < |ws|
      ensures Piece(ti, newLine, QuoteAll(ws)[i]).Ok?
    {
      PieceOfQuoted(ti, newLine, ws[i]);
    }
  }

  /** The fields after the title cut at the separators: three quoted keys,
      each followed by its quoted value. */
  lemma TailPieces(manufacturer: string, currency: string, price: string)
    requires NoFieldSeparator(manufacturer) && NoFieldSeparator(currency) && NoFieldSeparator(price)
    ensures Split(Tail(manufacturer, currency, price), IsFieldSeparator) ==
      QuoteAll(["manufacturer", manufacturer, "currency", currency, "price", price])
  {
    var f2, f3, f4 := Field("manufacturer", manufacturer), Field("currency", currency), Field("price", price);
    KeysHaveNoSeparator();
    SplitField("manufacturer", manufacturer);
    SplitField("currency", currency);
    SplitField("price", price);
    SplitAt(f2, ',', f3, IsFieldSeparator);
    SplitAt(f2 + [','] + f3, ',', f4, IsFieldSeparator);
  }

  /** The inside of a rendered record is the title field and the tail
      joined by a comma. */
  lemma RenderInside(title: string, manufacturer: string, currency: string, price: string)
    ensures var str := Render(title, manufacturer, currency, price);
      |str| >= 2 && str[1..|str| - 1] == Field("title", title) + [','] + Tail(manufacturer, currency, price)
  {
  }

  /** The inside of a rendered record cut at the separators: the four quoted
      keys, each followed by its quoted value. */
  lemma RenderedPieces(title: string, manufacturer: string, currency: string, price: string)
    requires NoFieldSeparator(title) && NoFieldSeparator(manufacturer)
    requires NoFieldSeparator(currency) && NoFieldSeparator(price)
    ensures var str := Render(title, manufacturer, currency, price);
      |str| >= 2 && RawPieces(str) == [Quoted("title"), Quoted(title)] + QuoteAll(["manufacturer", manufacturer, "currency", currency, "price", price])
  {
    RenderInside(title, manufacturer, currency, price);
    KeysHaveNoSeparator();
    SplitField("title", title);
    TailPieces(manufacturer, currency, price);
    SplitAt(Field("title", title), ',', Tail(manufacturer, currency, price), IsFieldSeparator);
  }

  /**
   * Parsing a rendered record whose values hold no separator gives back
   * the upper-cased title, manufacturer and currency code, and the parsed
   * upper-cased price.
   */
  lemma ParseRendered(ti: TextInfo, newLine: string, parse: string -> Option<real>,
                      title: string, manufacturer: string, currency: string, price: string)
    requires ti.toUpper('"') !in newLine
    requires NoFieldSeparator(title) && NoFieldSeparator(manufacturer)
    requires NoFieldSeparator(currency) && NoFieldSeparator(price)
    ensures var r := Parse(ti, newLine, parse, Render(title, manufacturer, currency, price));
      match parse(Upper(ti, price))
      case None => r == Err(Format)
      case Some(p) => r == Ok(Listing(Upper(ti, manufacturer), Upper(ti, title), Some(Upper(ti, currency)), p, ""))
  {
    var str := Render(title, manufacturer, currency, price);
    RenderedFields(title, manufacturer, currency, price);
    RenderedSurvives(ti, newLine, title, manufacturer, currency, price);
    ParseFields(ti, newLine, parse, str);
    InsideQuoted(ti, title);
    InsideQuoted(ti, manufacturer);
    InsideQuoted(ti, currency);
    InsideQuoted(ti, price);
  }

  /** Pieces 1, 3, 5 and 7 of a rendered record whose values hold no
      separator are its four quoted values. */
  lemma RenderedFields(title: string, manufacturer: string, currency: string, price: string)
    requires NoFieldSeparator(title) && NoFieldSeparator(manufacturer)
    requires NoFieldSeparator(currency) && NoFieldSeparator(price)
    ensures var str := Render(title, manufacturer, currency, price);
      |str| >= 2 && |RawPieces(str)| >= 8
    ensures var raw := RawPieces(Render(title, manufacturer, currency, price));
      |raw| >= 8 && raw[1] == Quoted(title) && raw[3] == Quoted(manufacturer) && raw[5] == Quoted(currency) && raw[7] == Quoted(price)
  {
    var ws := ["manufacturer", manufacturer, "currency", currency, "price", price];
    RenderedPieces(title, manufacturer, currency, price);
    assert ws[1] == manufacturer && ws[3] == currency && ws[5] == price;
  }

  /** Every piece of a rendered record whose values hold no separator
      survives the projection. */
  lemma RenderedSurvives(ti: TextInfo, newLine: string, title: string, manufacturer: string, currency: string, price: string)
    requires ti.toUpper('"') !in newLine
    requires NoFieldSeparator(title) && NoFieldSeparator(manufacturer)
    requires NoFieldSeparator(currency) && NoFieldSeparator(price)
    ensures var str := Render(title, manufacturer, currency, price);
      |str| >= 2 && Pieces(ti, newLine, RawPieces(str)).Ok?
  {
    var ws := ["manufacturer", manufacturer, "currency", currency, "price", price];
    RenderedPieces(title, manufacturer, currency, price);
    PairSurvives(ti, newLine, "title", title);
    QuotedPieces(ti, newLine, ws);
    PiecesAppend(ti, newLine, [Quoted("title"), Quoted(title)], QuoteAll(ws));
  }

  /** A quoted key and a quoted value survive the projection. */
  lemma PairSurvives(ti: TextInfo, newLine: string, key: string, value: string)
    requires ti.toUpper('"') !in newLine
    ensures Pieces(ti, newLine, [Quoted(key), Quoted(value)]).Ok?
  {
    var raw := [Quoted(key), Quoted(value)];
    forall i | 0 <= i < 2
      ensures Piece(ti, newLine, raw[i]).Ok?
    {
      PieceOfQuoted(ti, newLine, if i == 0 then key else value);
    }
  }

  /** The values of the sample record hold no separator. */
  lemma SampleValuesHaveNoSeparator(title: string, manufacturer: string, currency: string, price: string)
    requires title == "Canon PowerShot ELPH 300 HS (Black)" && manufacturer == "Canon Canada"
    requires currency == "CAD" && price == "259.99"
    ensures NoFieldSeparator(title) && NoFieldSeparator(manufacturer)
    ensures NoFieldSeparator(currency) && NoFieldSeparator(price)
  {
  }

  /**
   * The well-formed sample record, {"title":"Canon PowerShot ELPH 300 HS
   * (Black)","manufacturer":"Canon Canada","currency":"CAD",
   * "price":"259.99"}, parses into its upper-cased title, manufacturer and
   * currency code, with the price 259.99 when the upper-cased price text
   * parses as that number.
   */
  lemma SampleRecordExample(ti: TextInfo, newLine: string, parse: string -> Option<real>, src: string)
    requires ti.toUpper('"') !in newLine
    requires src == Render("Canon PowerShot ELPH 300 HS (Black)", "Canon Canada", "CAD", "259.99")
    requires parse(Upper(ti, "259.99")) == Some(259.99)
    ensures Parse(ti, newLine, parse, src) ==
      Ok(Listing(Upper(ti, "Canon Canada"), Upper(ti, "Canon PowerShot ELPH 300 HS (Black)"), Some(Upper(ti, "CAD")), 259.99, ""))
  {
    SampleValuesHaveNoSeparator("Canon PowerShot ELPH 300 HS (Black)", "Canon Canada", "CAD", "259.99");
    ParseRendered(ti, newLine, parse, "Canon PowerShot ELPH 300 HS (Black)", "Canon Canada", "CAD", "259.99");
  }

  /** The title field of a title with one comma is cut into three pieces:
      the quoted key, the opening quote with the text before the comma, and
      the text after it with the closing quote. */
  lemma SplitCommaTitle(before: string, after: string)
    requires NoFieldSeparator(before) && NoFieldSeparator(after)
    ensures Split(Field("title", before + "," + after), IsFieldSeparator) ==
      [Quoted("title"), "\"" + before, after + "\""]
  {
    KeysHaveNoSeparator();
    var key, left, right := Quoted("title"), "\"" + before, after + "\"";
    assert Field("title", before + "," + after) == key + [':'] + left + [','] + right;
    SplitAt(key + [':'] + left, ',', right, IsFieldSeparator);
    SplitAt(key, ':', left, IsFieldSeparator);
    SplitWithoutSeparator(key, IsFieldSeparator);
    SplitWithoutSeparator(left, IsFieldSeparator);
    SplitWithoutSeparator(right, IsFieldSeparator);
  }

  /** The inside of a rendered record whose title holds one comma, cut at
      the separators: nine pieces instead of eight. */
  lemma CommaTitlePieces(before: string, after: string, manufacturer: string, currency: string, price: string)
    requires NoFieldSeparator(before) && NoFieldSeparator(after)
    requires NoFieldSeparator(manufacturer) && NoFieldSeparator(currency) && NoFieldSeparator(price)
    ensures var str := Render(before + "," + after, manufacturer, currency, price);
      |str| >= 2 && RawPieces(str) ==
        [Quoted("title"), "\"" + before, after + "\""] + QuoteAll(["manufacturer", manufacturer, "currency", currency, "price", price])
  {
    var title := before + "," + after;
    RenderInside(title, manufacturer, currency, price);
    SplitCommaTitle(before, after);
    TailPieces(manufacturer, currency, price);
    SplitAt(Field("title", title), ',', Tail(manufacturer, currency, price), IsFieldSeparator);
  }

  /**
   * A comma in the title shifts every later field by one piece: the title
   * keeps only the text before the comma, less its last character; the
   * manufacturer and the currency code become the keys "manufacturer" and
   * "currency"; and the price text is the key "price", so the record fails
   * with the Format error unless that word parses as a number.
   */
  lemma CommaInTitleShiftsFields(ti: TextInfo, newLine: string, parse: string -> Option<real>,
                                 before: string, after: string, manufacturer: string, currency: string, price: string)
    requires ti.toUpper('"') !in newLine
    requires |before| >= 1 && |after| >= 1
    requires ti.toUpper(before[|before| - 1]) !in newLine && ti.toUpper(after[0]) !in newLine
    requires NoFieldSeparator(before) && NoFieldSeparator(after)
    requires NoFieldSeparator(manufacturer) && NoFieldSeparator(currency) && NoFieldSeparator(price)
    ensures var r := Parse(ti, newLine, parse, Render(before + "," + after, manufacturer, currency, price));
      match parse(Upper(ti, "price"))
      case None => r == Err(Format)
      case Some(p) => r == Ok(Listing(Upper(ti, "manufacturer"), Upper(ti, before)[..|before| - 1], Some(Upper(ti, "currency")), p, ""))
  {
    var str := Render(before + "," + after, manufacturer, currency, price);
    CommaTitleFields(before, after, manufacturer, currency, price);
    CommaTitleSurvives(ti, newLine, before, after, manufacturer, currency, price);
    ParseFields(ti, newLine, parse, str);
    InsideOpenQuoted(ti, before);
    InsideQuoted(ti, "manufacturer");
    InsideQuoted(ti, "currency");
    InsideQuoted(ti, "price");
  }

  /** Pieces 1, 3, 5 and 7 of a record whose title holds one comma are
      the opening quote with the text before the comma and the quoted keys
      "manufacturer", "currency" and "price". */
  lemma CommaTitleFields(before: string, after: string, manufacturer: string, currency: string, price: string)
    requires NoFieldSeparator(before) && NoFieldSeparator(after)
    requires NoFieldSeparator(manufacturer) && NoFieldSeparator(currency) && NoFieldSeparator(price)
    ensures var str := Render(before + "," + after, manufacturer, currency, price);
      |str| >= 2 && |RawPieces(str)| >= 8
    ensures var raw := RawPieces(Render(before + "," + after, manufacturer, currency, price));
      |raw| >= 8 && raw[1] == "\"" + before && raw[3] == Quoted("manufacturer") && raw[5] == Quoted("currency") && raw[7] == Quoted("price")
  {
    var ws := ["manufacturer", manufacturer, "currency", currency, "price", price];
    CommaTitlePieces(before, after, manufacturer, currency, price);
    assert ws[0] == "manufacturer" && ws[2] == "currency" && ws[4] == "price";
  }

  /** Every piece of a record whose title holds one comma survives the
      projection when the characters beside the comma are not new-line
      characters. */
  lemma CommaTitleSurvives(ti: TextInfo, newLine: string,
                           before: string, after: string, manufacturer: string, currency: string, price: string)
    requires ti.toUpper('"') !in newLine
    requires |before| >= 1 && |after| >= 1
    requires ti.toUpper(before[|before| - 1]) !in newLine && ti.toUpper(after[0]) !in newLine
    requires NoFieldSeparator(before) && NoFieldSeparator(after)
    requires NoFieldSeparator(manufacturer) && NoFieldSeparator(currency) && NoFieldSeparator(price)
    ensures var str := Render(before + "," + after, manufacturer, currency, price);
      |str| >= 2 && Pieces(ti, newLine, RawPieces(str)).Ok?
  {
    var ws := ["manufacturer", manufacturer, "currency", currency, "price", price];
    var title := [Quoted("title"), "\"" + before, after + "\""];
    CommaTitlePieces(before, after, manufacturer, currency, price);
    SplitPairSurvives(ti, newLine, "title", before, after);
    QuotedPieces(ti, newLine, ws);
    PiecesAppend(ti, newLine, title, QuoteAll(ws));
  }

  /** A quoted key followed by the two halves of a value cut at a comma
      survive the projection when the characters beside the comma are not
      new-line characters. */
  lemma SplitPairSurvives(ti: TextInfo, newLine: string, key: string, before: string, after: string)
    requires ti.toUpper('"') !in newLine
    requires |before| >= 1 && |after| >= 1
    requires ti.toUpper(before[|before| - 1]) !in newLine && ti.toUpper(after[0]) !in newLine
    ensures Pieces(ti, newLine, [Quoted(key), "\"" + before, after + "\""]).Ok?
  {
    var raw := [Quoted(key), "\"" + before, after + "\""];
    forall i | 0 <= i < 3
      ensures Piece(ti, newLine, raw[i]).Ok?
    {
      if i == 0 {
        PieceOfQuoted(ti, newLine, key);
      } else if i == 1 {
        OpenQuotedSurvives(ti, newLine, before);
      } else {
        CloseQuotedSurvives(ti, newLine, after);
      }
    }
  }

  /** A text after an opening quote survives the projection when its last
      character is not a new-line character. */
  lemma OpenQuotedSurvives(ti: TextInfo, newLine: string, s: string)
    requires ti.toUpper('"') !in newLine
    requires |s| >= 1 && ti.toUpper(s[|s| - 1]) !in newLine
    ensures Piece(ti, newLine, "\"" + s).Ok?
  {
    var x := "\"" + s;
    assert x[0] == '"' && x[|x| - 1] == s[|s| - 1];
    PieceSurvives(ti, newLine, x);
  }

  /** A text before a closing quote survives the projection when its first
      character is not a new-line character. */
  lemma CloseQuotedSurvives(ti: TextInfo, newLine: string, s: string)
    requires ti.toUpper('"') !in newLine
    requires |s| >= 1 && ti.toUpper(s[0]) !in newLine
    ensures Piece(ti, newLine, s + "\"").Ok?
  {
    var x := s + "\"";
    assert x[0] == s[0] && x[|x| - 1] == '"';
    PieceSurvives(ti, newLine, x);
  }

  /** The inside of a text with only its opening quote is the upper-cased
      text less its last character. */
  lemma InsideOpenQuoted(ti: TextInfo, s: string)
    requires |s| >= 1
    ensures Inside(ti, "\"" + s) == Upper(ti, s)[..|s| - 1]
  {
  }

  /** When the pieces of two lists all survive, so do those of the two
      joined. */
  lemma PiecesAppend(ti: TextInfo, newLine: string, a: seq<string>, b: seq<string>)
    requires Pieces(ti, newLine, a).Ok? && Pieces(ti, newLine, b).Ok?
    ensures Pieces(ti, newLine, a + b).Ok?
  {
    forall i | 0 <= i < |a + b|
      ensures Piece(ti, newLine, (a + b)[i]).Ok?
    {
      if i >= |a| {
        assert (a + b)[i] == b[i - |a|];
      }
    }
  }
}
