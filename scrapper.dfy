/**
 * The extraction side of scrapper.py: the profile registry built by
 * `Scrapper.__init__`, the per-fragment record of `define_perfiles`, and the
 * data logic of `scrap_info_product` (fragments to records, the price column
 * rewrite, the column reorder and the error path).
 *
 * HTML parsing is abstracted: a product fragment is represented by what
 * `find(tag, class_=cls)` returns on it for each selector, and a page by its
 * candidate container elements in document order.
 */
module Scrapper {
  import opened Wrappers
  import opened PriceText

  // ---------------------------------------------------------------------------
  // Fragments and profiles
  // ---------------------------------------------------------------------------

  /** A `find`/`find_all` query: tag name and `class_` argument. */
  datatype Selector = Selector(tag: string, cls: string)

  /** What extraction reads from a located element: its `.text` and its `src` attribute, if present. */
  datatype Element = Element(text: string, src: Option<string>)

  /** A product fragment: for each selector that locates something in it, the first element located. */
  datatype Fragment = Fragment(found: map<Selector, Element>)

  /** A candidate container element of the page: its tag, its classes and its content. */
  datatype Node = Node(tag: string, classes: set<string>, body: Fragment)

  /** A parsed page, as its elements in document order. */
  type Document = seq<Node>

  /** How a profile obtains the seller: from an element, or a fixed value. */
  datatype SellerRule = SellerAt(sel: Selector) | Fixed(value: string)

  /**
   * A scraping profile. The source stores one lambda per field; here each
   * field is the selector that lambda queries, interpreted by the functions below.
   * `precio` lists the alternatives tried in order (the `or` of line 16).
   */
  datatype Profile = Profile(
    nombre: string,
    container: Selector,
    producto: Selector,
    vendedor: SellerRule,
    precio: seq<Selector>,
    imagen: Selector)

  const PerfilPcComp: Profile := Profile(
    "PcComp",
    Selector("div", "product-card"),
    Selector("h3", "product-card__title"),
    SellerAt(Selector("span", "card-seller-name")),
    [Selector("span", "sc-jJcwTH"), Selector("span", "goySsD")],
    Selector("img", "sc-lpYOg"))

  const PerfilCoolMod: Profile := Profile(
    "CoolMod",
    Selector("div", "df-card"),
    Selector("div", "df-card__title"),
    Fixed(""),
    [Selector("span", "df-card__price")],
    Selector("img", ""))

  /** `div.find(tag, class_=cls)`: the element located, or `None`. */
  function Find(div: Fragment, sel: Selector): Option<Element> {
    if sel in div.found then Some(div.found[sel]) else None
  }

  /** `find(a) or find(b) or ...`: the element of the first selector that locates one. */
  function FindFirst(div: Fragment, sels: seq<Selector>): (r: Option<Element>)
    ensures r.None? <==> forall i :: 0 <= i < |sels| ==> Find(div, sels[i]).None?
    ensures r.Some? ==> exists i :: 0 <= i < |sels| && Find(div, sels[i]) == r
                                    && forall j :: 0 <= j < i ==> Find(div, sels[j]).None?
  {
    if sels == [] then None
    else if Find(div, sels[0]).Some? then
      Find(div, sels[0])
    else
      var r := FindFirst(div, sels[1..]);
      assert forall i :: 1 <= i < |sels| ==> sels[i] == sels[1..][i - 1];
      r
  }

  predicate Matches(node: Node, sel: Selector) {
    node.tag == sel.tag && sel.cls in node.classes
  }

  /** `soup.find_all(tag, class_=cls)`: the matching container elements, in document order. */
  function Containers(doc: Document, sel: Selector): (divs: seq<Fragment>)
    ensures |divs| <= |doc|
    ensures (forall i :: 0 <= i < |doc| ==> !Matches(doc[i], sel)) ==> divs == []
  {
    if doc == [] then []
    else (if Matches(doc[0], sel) then [doc[0].body] else []) + Containers(doc[1..], sel)
  }

  /** The fragments `find_all` returns are exactly the bodies of the matching page elements. */
  lemma {:induction false} ContainersSpec(doc: Document, sel: Selector)
    ensures forall f :: f in Containers(doc, sel) <==> exists i :: 0 <= i < |doc| && Matches(doc[i], sel) && doc[i].body == f
  {
    if doc != [] {
      ContainersSpec(doc[1..], sel);
      assert forall i :: 1 <= i < |doc| ==> doc[i] == doc[1..][i - 1];
      forall f | f in Containers(doc, sel)
        ensures exists i :: 0 <= i < |doc| && Matches(doc[i], sel) && doc[i].body == f
      {
        if f !in Containers(doc[1..], sel) {
          assert Matches(doc[0], sel) && doc[0].body == f;
        } else {
          var k :| 0 <= k < |doc[1..]| && Matches(doc[1..][k], sel) && doc[1..][k].body == f;
          assert doc[k + 1] == doc[1..][k];
        }
      }
      forall f | exists i :: 0 <= i < |doc| && Matches(doc[i], sel) && doc[i].body == f
        ensures f in Containers(doc, sel)
      {
        var i :| 0 <= i < |doc| && Matches(doc[i], sel) && doc[i].body == f;
        if i > 0 {
          assert doc[1..][i - 1] == doc[i];
        }
      }
    }
  }

  // ---------------------------------------------------------------------------
  // Records
  // ---------------------------------------------------------------------------

  datatype Column = Imagen | Producto | Precio | Vendedor

  /** Key order of the dictionary `define_perfiles` returns, which the first table keeps. */
  const InitialColumns: seq<Column> := [Producto, Precio, Vendedor, Imagen]

  /** Column order after the reorder of lines 74-75. */
  const FinalColumns: seq<Column> := [Imagen, Producto, Precio, Vendedor]

  /** The price cell: raw located text (`None` when nothing was located), then, after line 72, a float (`None` is NaN). */
  datatype PriceCell = Raw(text: Option<string>) | Parsed(value: Option<real>)

  datatype Record = Record(producto: string, precio: PriceCell, vendedor: string, imagen: string)

  /** Exceptions the `try` of scrap_info_product catches and reports. */
  datatype Error =
    | UnicodeDecodeError        // the uploaded bytes are not UTF-8 (line 66)
    | NoProfile                 // the profile is None, so `perfil['Container']` raises (line 68)
    | NotFound(column: Column)  // a locator found nothing and `.text` or `['src']` was applied to None
    | NoSrc                     // the image element has no `src` attribute
    | NoPriceColumn             // the table built from zero records has no 'Precio' column (line 72)
    | NotAFloat(text: string)   // `float()` rejects a rewritten price (line 72)

  /** The `Producto` lambda: stripped text of the title element. */
  function ProductoOf(p: Profile, div: Fragment): Result<string, Error> {
    match Find(div, p.producto)
    case None => Err(NotFound(Producto))
    case Some(e) => Ok(Strip(e.text))
  }

  /** The `Vendedor` lambda: stripped text of the seller element, or the profile's fixed value. */
  function VendedorOf(p: Profile, div: Fragment): Result<string, Error> {
    match p.vendedor
    case Fixed(v) => Ok(v)
    case SellerAt(sel) =>
      match Find(div, sel)
      case None => Err(NotFound(Vendedor))
      case Some(e) => Ok(Strip(e.text))
  }

  /** The `Imagen` lambda: the `src` attribute of the image element. */
  function ImagenOf(p: Profile, div: Fragment): Result<string, Error> {
    match Find(div, p.imagen)
    case None => Err(NotFound(Imagen))
    case Some(e) => if e.src.Some? then Ok(e.src.value) else Err(NoSrc)
  }

  /** Line 44: the stripped text of the located price element, or `None` when no locator finds one. */
  function RawPrice(p: Profile, div: Fragment): Option<string> {
    match FindFirst(div, p.precio)
    case None => None
    case Some(e) => Some(Strip(e.text))
  }

  /** The conversion of line 72 for one cell: rewrite, then `float()`; a missing price stays missing. */
  function ConvertPrice(cell: PriceCell): (r: Result<Option<real>, Error>)
    ensures cell == Raw(None) ==> r == Ok(None)
    ensures r.Err? ==> r.error.NotAFloat?
  {
    match cell
    case Parsed(v) => Ok(v)
    case Raw(None) => Ok(None)
    case Raw(Some(t)) =>
      match ParseFloat(NormalizePrice(t))
      case None => Err(NotAFloat(NormalizePrice(t)))
      case Some(v) => Ok(Some(v))
  }

  // ---------------------------------------------------------------------------
  // Applying a step to every element, stopping at the first exception
  // ---------------------------------------------------------------------------

  /**
   * `[f(x) for x in xs]` where `f` may raise: the list of results, or the
   * exception of the first element that raises.
   */
  function Traverse<A, B>(f: A -> Result<B, Error>, xs: seq<A>): (r: Result<seq<B>, Error>)
    ensures r.Ok? ==> |r.value| == |xs|
  {
    if xs == [] then Ok([])
    else
      match Traverse(f, xs[..|xs| - 1])
      case Err(e) => Err(e)
      case Ok(bs) =>
        match f(xs[|xs| - 1])
        case Err(e) => Err(e)
        case Ok(b) => Ok(bs + [b])
  }

  /**
   * The comprehension succeeds exactly when every element succeeds, and then
   * holds one result per element in order; otherwise it fails with the
   * exception of the first element that fails.
   */
  lemma {:induction false} TraverseSpec<A, B>(f: A -> Result<B, Error>, xs: seq<A>)
    ensures Traverse(f, xs).Ok? <==> forall i :: 0 <= i < |xs| ==> f(xs[i]).Ok?
    ensures Traverse(f, xs).Ok? ==>
              |Traverse(f, xs).value| == |xs| && forall i :: 0 <= i < |xs| ==> f(xs[i]) == Ok(Traverse(f, xs).value[i])
    ensures Traverse(f, xs).Err? ==>
              exists i :: 0 <= i < |xs| && f(xs[i]) == Err(Traverse(f, xs).error) && forall j :: 0 <= j < i ==> f(xs[j]).Ok?
  {
    if xs != [] {
      var init := xs[..|xs| - 1];
      assert forall i :: 0 <= i < |init| ==> init[i] == xs[i];
      TraverseSpec(f, init);
      if Traverse(f, init).Err? {
        var i :| 0 <= i < |init| && f(init[i]) == Err(Traverse(f, init).error) && forall j :: 0 <= j < i ==> f(init[j]).Ok?;
        assert f(xs[i]) == Err(Traverse(f, xs).error);
      }
    }
  }

  /** Traversal of a longer list agrees with its prefix on everything before the first exception. */
  lemma TraverseStep<A, B>(f: A -> Result<B, Error>, xs: seq<A>, i: nat, bs: seq<B>)
    requires i < |xs| && Traverse(f, xs[..i]) == Ok(bs)
    ensures f(xs[i]).Err? ==> Traverse(f, xs) == Err(f(xs[i]).error)
    ensures f(xs[i]).Ok? ==> Traverse(f, xs[..i + 1]) == Ok(bs + [f(xs[i]).value])
  {
    assert xs[..i + 1][..i] == xs[..i];
    if f(xs[i]).Err? {
      TraverseSpec(f, xs[..i]);
      TraverseSpec(f, xs);
      assert forall k :: 0 <= k < i ==> xs[..i][k] == xs[k];
      var r := Traverse(f, xs);
      var k :| 0 <= k < |xs| && f(xs[k]) == Err(r.error) && forall j :: 0 <= j < k ==> f(xs[j]).Ok?;
      assert k == i;
    }
  }

  // ---------------------------------------------------------------------------
  // scrap_info_product, as a function of the upload and the profile
  // ---------------------------------------------------------------------------

  /** The uploaded file: HTML text, or bytes that are not UTF-8. */
  datatype Upload = NotUtf8 | Html(doc: Document)

  /** What scrap_info_product returns: the initial empty list, or a table with its columns. */
  datatype Datos = EmptyList | Frame(columns: seq<Column>, rows: seq<Record>)

  /** `define_perfiles` with the profile fixed, as the comprehension of line 69 applies it. */
  function DefineWith(p: Profile): Fragment -> Result<Record, Error> {
    (div: Fragment) => Scrapper.DefinePerfiles(div, p)
  }

  /** Line 69: one record per container fragment, or the first exception raised. */
  function ExtractAll(p: Profile, divs: seq<Fragment>): Result<seq<Record>, Error> {
    Traverse(DefineWith(p), divs)
  }

  /** The conversion of one record's price cell. */
  function ConvertRecord(r: Record): Result<Option<real>, Error> {
    ConvertPrice(r.precio)
  }

  /** Line 72 up to `astype(float)`: the converted price column, or the first conversion error. */
  function ConvertColumn(productos: seq<Record>): Result<seq<Option<real>>, Error> {
    Traverse(ConvertRecord, productos)
  }

  /** The table with its price column replaced by the converted one. */
  function WithPrices(productos: seq<Record>, precios: seq<Option<real>>): (rows: seq<Record>)
    requires |precios| == |productos|
  {
    seq(|productos|, i requires 0 <= i < |productos| => productos[i].(precio := Parsed(precios[i])))
  }

  /**
   * What scrap_info_product returns, with the exception it reports (if any).
   * Every exception is caught: the result is the value `datosproductos` held
   * when it was raised.
   */
  function Scraped(perfil: Option<Profile>, file: Option<Upload>): (Datos, Option<Error>) {
    match file
    case None => (EmptyList, None)
    case Some(NotUtf8) => (EmptyList, Some(UnicodeDecodeError))
    case Some(Html(doc)) =>
      match perfil
      case None => (EmptyList, Some(NoProfile))
      case Some(p) =>
        match ExtractAll(p, Containers(doc, p.container))
        case Err(e) => (EmptyList, Some(e))
        case Ok(productos) =>
          if productos == [] then (Frame([], []), Some(NoPriceColumn))
          else
            match ConvertColumn(productos)
            case Err(e) => (Frame(InitialColumns, productos), Some(e))
            case Ok(precios) => (Frame(FinalColumns, WithPrices(productos, precios)), None)
  }

  // ---------------------------------------------------------------------------
  // What scrap_info_product guarantees
  // ---------------------------------------------------------------------------

  /** Line 69: the records are exactly one per fragment, in fragment order, or the first fragment's exception. */
  lemma ExtractAllSpec(p: Profile, divs: seq<Fragment>)
    ensures ExtractAll(p, divs).Ok? <==> forall i :: 0 <= i < |divs| ==> Scrapper.DefinePerfiles(divs[i], p).Ok?
    ensures ExtractAll(p, divs).Ok? ==>
              |ExtractAll(p, divs).value| == |divs|
              && forall i :: 0 <= i < |divs| ==> Scrapper.DefinePerfiles(divs[i], p) == Ok(ExtractAll(p, divs).value[i])
    ensures ExtractAll(p, divs).Err? ==>
              exists i :: 0 <= i < |divs| && Scrapper.DefinePerfiles(divs[i], p) == Err(ExtractAll(p, divs).error)
                          && forall j :: 0 <= j < i ==> Scrapper.DefinePerfiles(divs[j], p).Ok?
  {
    TraverseSpec(DefineWith(p), divs);
    assert forall i :: 0 <= i < |divs| ==> DefineWith(p)(divs[i]) == Scrapper.DefinePerfiles(divs[i], p);
  }

  /**
   * Line 72: the column converts exactly when every price converts, cell by
   * cell in order; otherwise it fails with the error of the first price that
   * does not convert.
   */
  lemma ConvertColumnSpec(productos: seq<Record>)
    ensures ConvertColumn(productos).Ok? <==> forall i :: 0 <= i < |productos| ==> ConvertPrice(productos[i].precio).Ok?
    ensures ConvertColumn(productos).Ok? ==>
              |ConvertColumn(productos).value| == |productos|
              && forall i :: 0 <= i < |productos| ==> ConvertPrice(productos[i].precio) == Ok(ConvertColumn(productos).value[i])
    ensures ConvertColumn(productos).Err? ==>
              exists i :: 0 <= i < |productos| && ConvertPrice(productos[i].precio) == Err(ConvertColumn(productos).error)
                          && forall j :: 0 <= j < i ==> ConvertPrice(productos[j].precio).Ok?
  {
    TraverseSpec(ConvertRecord, productos);
  }

  /** The price a fragment ends up with: its raw text rewritten and parsed, or missing. */
  function FragmentPrice(p: Profile, div: Fragment): Result<Option<real>, Error> {
    ConvertPrice(Raw(RawPrice(p, div)))
  }

  /**
   * Processing of an uploaded page reports nothing exactly when the page has
   * at least one container, every fragment yields a record and every located
   * price converts.
   */
  lemma ScrapedReportsIff(p: Profile, doc: Document)
    ensures var divs := Containers(doc, p.container);
            Scraped(Some(p), Some(Html(doc))).1 == None
            <==> |divs| > 0
                 && (forall i :: 0 <= i < |divs| ==> Scrapper.DefinePerfiles(divs[i], p).Ok?)
                 && (forall i :: 0 <= i < |divs| ==> FragmentPrice(p, divs[i]).Ok?)
  {
    var divs := Containers(doc, p.container);
    ScrapedReportsNothing(p, doc);
    if forall i :: 0 <= i < |divs| ==> Scrapper.DefinePerfiles(divs[i], p).Ok? {
      var productos := RecordsOf(p, divs);
      ConvertColumnSpec(productos);
      assert forall i :: 0 <= i < |divs| ==> FragmentPrice(p, divs[i]) == ConvertPrice(productos[i].precio);
    } else {
      ExtractAllSpec(p, divs);
    }
  }

  /** Unfolding of the success path of scrap_info_product: extraction succeeds on some fragment and the column converts. */
  lemma ScrapedReportsNothing(p: Profile, doc: Document)
    ensures var productos := ExtractAll(p, Containers(doc, p.container));
            Scraped(Some(p), Some(Html(doc))).1 == None
            <==> productos.Ok? && productos.value != [] && ConvertColumn(productos.value).Ok?
  {
  }

  /**
   * After successful processing the table has the columns Imagen, Producto,
   * Precio, Vendedor, one row per container fragment in fragment order, each
   * row the fragment's record with its price converted.
   */
  lemma {:induction false} ScrapedSuccess(p: Profile, doc: Document)
    requires Scraped(Some(p), Some(Html(doc))).1 == None
    ensures var divs := Containers(doc, p.container);
            var datos := Scraped(Some(p), Some(Html(doc))).0;
            && datos.Frame? && datos.columns == FinalColumns
            && |datos.rows| == |divs| > 0
            && forall i :: 0 <= i < |divs| ==>
                 && datos.rows[i].precio.Parsed?
                 && Scrapper.DefinePerfiles(divs[i], p) == Ok(datos.rows[i].(precio := Raw(RawPrice(p, divs[i]))))
                 && FragmentPrice(p, divs[i]) == Ok(datos.rows[i].precio.value)
  {
    var divs := Containers(doc, p.container);
    var productos, precios := SuccessParts(p, doc);
    var rows := WithPrices(productos, precios);
    forall i | 0 <= i < |divs|
      ensures rows[i].precio == Parsed(precios[i])
      ensures Scrapper.DefinePerfiles(divs[i], p) == Ok(rows[i].(precio := Raw(RawPrice(p, divs[i]))))
      ensures FragmentPrice(p, divs[i]) == Ok(precios[i])
    {
      assert rows[i] == productos[i].(precio := Parsed(precios[i]));
      assert rows[i].(precio := Raw(RawPrice(p, divs[i]))) == productos[i];
    }
  }

  /** The success path of scrap_info_product names the records and the converted column it reorders. */
  lemma SuccessParts(p: Profile, doc: Document) returns (productos: seq<Record>, precios: seq<Option<real>>)
    requires Scraped(Some(p), Some(Html(doc))).1 == None
    ensures var divs := Containers(doc, p.container);
            && |productos| == |divs| > 0 && |precios| == |productos|
            && Scraped(Some(p), Some(Html(doc))).0 == Frame(FinalColumns, WithPrices(productos, precios))
            && (forall i :: 0 <= i < |divs| ==>
                  Scrapper.DefinePerfiles(divs[i], p) == Ok(productos[i]) && productos[i].precio == Raw(RawPrice(p, divs[i])))
            && (forall i :: 0 <= i < |productos| ==> ConvertPrice(productos[i].precio) == Ok(precios[i]))
  {
    var divs := Containers(doc, p.container);
    ScrapedReportsNothing(p, doc);
    productos := ExtractedRecords(p, divs);
    precios := ConvertedPrices(productos);
  }

  /** Successful extraction holds the record of each fragment, in order. */
  lemma ExtractedRecords(p: Profile, divs: seq<Fragment>) returns (productos: seq<Record>)
    requires ExtractAll(p, divs).Ok?
    ensures ExtractAll(p, divs) == Ok(productos) && |productos| == |divs|
    ensures forall i :: 0 <= i < |divs| ==>
              Scrapper.DefinePerfiles(divs[i], p) == Ok(productos[i]) && productos[i].precio == Raw(RawPrice(p, divs[i]))
  {
    ExtractAllSpec(p, divs);
    productos := ExtractAll(p, divs).value;
  }

  /** Successful conversion holds the converted price of each record, in order. */
  lemma ConvertedPrices(productos: seq<Record>) returns (precios: seq<Option<real>>)
    requires ConvertColumn(productos).Ok?
    ensures ConvertColumn(productos) == Ok(precios) && |precios| == |productos|
    ensures forall i :: 0 <= i < |productos| ==> ConvertPrice(productos[i].precio) == Ok(precios[i])
  {
    ConvertColumnSpec(productos);
    precios := ConvertColumn(productos).value;
  }

  /** A located price holding two or more commas fails to convert (line 72). */
  lemma TwoCommasPriceFails(raw: string)
    requires Count(raw, ',') >= 2
    ensures ConvertPrice(Raw(Some(raw))) == Err(NotAFloat(NormalizePrice(raw)))
  {
    TwoCommasFail(raw);
  }

  /**
   * The failure mode of the rewrite: if every fragment yields a record but
   * some located price holds two or more commas, the conversion fails, the
   * error is reported, and the value returned is the table of raw records in
   * the dictionary's key order (the reorder of line 75 is never reached).
   */
  lemma {:induction false} ScrapedTwoCommas(p: Profile, doc: Document, k: nat)
    requires var divs := Containers(doc, p.container);
             && (forall i :: 0 <= i < |divs| ==> Scrapper.DefinePerfiles(divs[i], p).Ok?)
             && k < |divs| && RawPrice(p, divs[k]).Some? && Count(RawPrice(p, divs[k]).value, ',') >= 2
    ensures var divs := Containers(doc, p.container);
            var datos, reported := Scraped(Some(p), Some(Html(doc))).0, Scraped(Some(p), Some(Html(doc))).1;
            && reported.Some? && reported.value.NotAFloat?
            && datos.Frame? && datos.columns == InitialColumns && |datos.rows| == |divs|
            && forall i :: 0 <= i < |divs| ==>
                 && Scrapper.DefinePerfiles(divs[i], p) == Ok(datos.rows[i])
                 && datos.rows[i].precio == Raw(RawPrice(p, divs[i]))
  {
    var divs := Containers(doc, p.container);
    var productos := RecordsOf(p, divs);
    TwoCommasPriceFails(RawPrice(p, divs[k]).value);
    ColumnFailsAt(productos, k);
    ScrapedConvertFails(p, doc);
  }

  /** When every fragment yields a record, extraction succeeds with exactly those records. */
  lemma RecordsOf(p: Profile, divs: seq<Fragment>) returns (productos: seq<Record>)
    requires forall i :: 0 <= i < |divs| ==> Scrapper.DefinePerfiles(divs[i], p).Ok?
    ensures ExtractAll(p, divs) == Ok(productos) && |productos| == |divs|
    ensures forall i :: 0 <= i < |divs| ==>
              Scrapper.DefinePerfiles(divs[i], p) == Ok(productos[i]) && productos[i].precio == Raw(RawPrice(p, divs[i]))
  {
    ExtractAllSpec(p, divs);
    productos := ExtractAll(p, divs).value;
  }

  /** One price that fails to convert makes the whole column fail, with a `float()` error. */
  lemma ColumnFailsAt(productos: seq<Record>, k: nat)
    requires k < |productos| && ConvertPrice(productos[k].precio).Err?
    ensures ConvertColumn(productos).Err? && ConvertColumn(productos).error.NotAFloat?
  {
    ConvertColumnSpec(productos);
  }

  /** Line 71 to line 72: a failed conversion reports its error next to the raw table. */
  lemma ScrapedConvertFails(p: Profile, doc: Document)
    requires ExtractAll(p, Containers(doc, p.container)).Ok?
    requires ExtractAll(p, Containers(doc, p.container)).value != []
    requires ConvertColumn(ExtractAll(p, Containers(doc, p.container)).value).Err?
    ensures var productos := ExtractAll(p, Containers(doc, p.container)).value;
            Scraped(Some(p), Some(Html(doc)))
            == (Frame(InitialColumns, productos), Some(ConvertColumn(productos).error))
  {
  }

  /** A page with no container fragment yields an empty table and a reported error (the missing 'Precio' column). */
  lemma ScrapedNoFragments(p: Profile, doc: Document)
    requires Containers(doc, p.container) == []
    ensures Scraped(Some(p), Some(Html(doc))) == (Frame([], []), Some(NoPriceColumn))
  {
    assert ExtractAll(p, []) == Ok([]);
  }

  /** Every table built with the CoolMod profile has an empty seller in every row. */
  lemma {:induction false} CoolModSellersEmpty(doc: Document)
    ensures var datos := Scraped(Some(PerfilCoolMod), Some(Html(doc))).0;
            datos.Frame? ==> forall i :: 0 <= i < |datos.rows| ==> datos.rows[i].vendedor == ""
  {
    var divs := Containers(doc, PerfilCoolMod.container);
    ExtractAllSpec(PerfilCoolMod, divs);
    if ExtractAll(PerfilCoolMod, divs).Ok? {
      var productos := ExtractAll(PerfilCoolMod, divs).value;
      assert forall i :: 0 <= i < |productos| ==> productos[i].vendedor == "";
      if productos != [] {
        ConvertColumnSpec(productos);
      }
    }
  }

  /** With a profile given, the missing-profile error is never the one reported. */
  lemma ScrapedWithProfile(p: Profile, file: Option<Upload>)
    ensures Scraped(Some(p), file).1 != Some(NoProfile)
  {
    if file.Some? && file.value.Html? {
      var divs := Containers(file.value.doc, p.container);
      ExtractAllSpec(p, divs);
      if ExtractAll(p, divs).Ok? && ExtractAll(p, divs).value != [] {
        ConvertColumnSpec(ExtractAll(p, divs).value);
      }
    }
  }

  /** Line 16: the PcComp price is the `sc-jJcwTH` span, falling back to the `goySsD` span, else missing. */
  lemma PcCompPriceFallback(div: Fragment)
    ensures var primary, fallback := Selector("span", "sc-jJcwTH"), Selector("span", "goySsD");
            RawPrice(PerfilPcComp, div)
            == if primary in div.found then Some(Strip(div.found[primary].text))
               else if fallback in div.found then Some(Strip(div.found[fallback].text))
               else None
  {
    var primary, fallback := Selector("span", "sc-jJcwTH"), Selector("span", "goySsD");
    var sels := PerfilPcComp.precio;
    assert sels == [primary, fallback] && sels[1..] == [fallback] && sels[1..][1..] == [];
    assert FindFirst(div, []) == None;
    assert FindFirst(div, [fallback]) == if fallback in div.found then Some(div.found[fallback]) else None;
    assert FindFirst(div, sels) == if primary in div.found then Some(div.found[primary]) else FindFirst(div, [fallback]);
  }

  /** The seller can be read: the profile fixes it, or its element is in the fragment. */
  predicate SellerLocated(p: Profile, div: Fragment) {
    p.vendedor.Fixed? || p.vendedor.sel in div.found
  }

  /**
   * Lines 42 to 48: a record holds the stripped title text, the raw price,
   * the fixed or stripped seller text and the image's `src`, all read from the fragment.
   */
  lemma DefinePerfilesFields(div: Fragment, p: Profile)
    ensures var dp := Scrapper.DefinePerfiles(div, p);
            dp.Ok? ==>
              && p.producto in div.found && dp.value.producto == Strip(div.found[p.producto].text)
              && dp.value.precio == Raw(RawPrice(p, div))
              && SellerLocated(p, div)
              && dp.value.vendedor == (match p.vendedor
                                       case Fixed(v) => v
                                       case SellerAt(sel) => Strip(div.found[sel].text))
              && p.imagen in div.found && div.found[p.imagen].src.Some?
              && dp.value.imagen == div.found[p.imagen].src.value
  {
  }

  /**
   * Lines 43 to 48 in evaluation order: a missing title decides the exception,
   * then a missing seller, then a missing image, then an image without `src`;
   * when none of these happens a record is produced.
   */
  lemma DefinePerfilesFirstError(div: Fragment, p: Profile)
    ensures var dp := Scrapper.DefinePerfiles(div, p);
            && (p.producto !in div.found ==> dp == Err(NotFound(Producto)))
            && (p.producto in div.found && !SellerLocated(p, div) ==> dp == Err(NotFound(Vendedor)))
            && (p.producto in div.found && SellerLocated(p, div) && p.imagen !in div.found ==> dp == Err(NotFound(Imagen)))
            && (p.producto in div.found && SellerLocated(p, div) && p.imagen in div.found && div.found[p.imagen].src.None?
                ==> dp == Err(NoSrc))
            && (p.producto in div.found && SellerLocated(p, div) && p.imagen in div.found && div.found[p.imagen].src.Some?
                ==> dp.Ok?)
  {
  }

  /**
   * Lines 11 to 27, read through define_perfiles: a PcComp fragment gives a
   * record exactly when it has the title, the seller and an image with `src`;
   * a CoolMod fragment needs no seller element.
   */
  lemma ProfileLocators(div: Fragment)
    ensures var title, seller, img := Selector("h3", "product-card__title"), Selector("span", "card-seller-name"), Selector("img", "sc-lpYOg");
            Scrapper.DefinePerfiles(div, PerfilPcComp).Ok?
            <==> title in div.found && seller in div.found && img in div.found && div.found[img].src.Some?
    ensures var title, img := Selector("div", "df-card__title"), Selector("img", "");
            Scrapper.DefinePerfiles(div, PerfilCoolMod).Ok?
            <==> title in div.found && img in div.found && div.found[img].src.Some?
  {
    DefinePerfilesFirstError(div, PerfilPcComp);
    DefinePerfilesFirstError(div, PerfilCoolMod);
  }

  // ---------------------------------------------------------------------------
  // The Scrapper object
  // ---------------------------------------------------------------------------

  class Scrapper {
    var perfilPcComp: Profile
    var perfilCoolMod: Profile
    var perfiles: seq<Profile>

    /** `__init__`: the two built-in profiles and the registry that lists them. */
    constructor ()
      ensures perfilPcComp == PerfilPcComp && perfilCoolMod == PerfilCoolMod
      ensures perfiles == [perfilPcComp, perfilCoolMod]
    {
      perfilPcComp := PerfilPcComp;
      perfilCoolMod := PerfilCoolMod;
      perfiles := [PerfilPcComp, PerfilCoolMod];
    }

    /**
     * `define_perfiles`: the record of one fragment. The fields are evaluated
     * in the source's order (product, price, seller, image), so the first
     * locator that fails decides the exception.
     */
    static function DefinePerfiles(div: Fragment, perfil: Profile): (r: Result<Record, Error>)
      ensures r.Ok? ==> r.value.precio == Raw(RawPrice(perfil, div))
      ensures r.Ok? <==> ProductoOf(perfil, div).Ok? && VendedorOf(perfil, div).Ok? && ImagenOf(perfil, div).Ok?
      ensures r.Err? ==> r.error.NotFound? || r.error.NoSrc?
    {
      match ProductoOf(perfil, div)
      case Err(e) => Err(e)
      case Ok(producto) =>
        var precio := RawPrice(perfil, div);
        match VendedorOf(perfil, div)
        case Err(e) => Err(e)
        case Ok(vendedor) =>
          match ImagenOf(perfil, div)
          case Err(e) => Err(e)
          case Ok(imagen) => Ok(Record(producto, Raw(precio), vendedor, imagen))
    }

    /** Line 69 over an array: one record per fragment, in fragment order, or the first exception. */
    static method DefineAll(p: Profile, divs: seq<Fragment>) returns (r: Result<seq<Record>, Error>)
      ensures r == ExtractAll(p, divs)
    {
      var define := DefineWith(p);
      assert ExtractAll(p, divs) == Traverse(define, divs);
      var productos := new Record[|divs|];
      var i := 0;
      while i < |divs|
        invariant 0 <= i <= |divs|
        invariant Traverse(define, divs[..i]) == Ok(productos[..i])
      {
        var d := DefinePerfiles(divs[i], p);
        assert define(divs[i]) == d;
        TraverseStep(define, divs, i, productos[..i]);
        if d.Err? {
          r := Err(d.error);
          assert r == Traverse(define, divs);
          return;
        }
        productos[i] := d.value;
        assert productos[..i + 1] == productos[..i] + [d.value];
        i := i + 1;
      }
      assert divs[..|divs|] == divs;
      assert productos[..|divs|] == productos[..];
      r := Ok(productos[..]);
    }

    /**
     * Line 72 on the table held in `productos`: every price is converted
     * first; only when all convert is the column overwritten in place,
     * otherwise the table is left as it was and the error is returned.
     */
    static method ConvertPriceColumn(productos: array<Record>) returns (err: Option<Error>)
      modifies productos
      ensures ConvertColumn(old(productos[..])).Err? ==>
                err == Some(ConvertColumn(old(productos[..])).error) && productos[..] == old(productos[..])
      ensures ConvertColumn(old(productos[..])).Ok? ==>
                err == None && productos[..] == WithPrices(old(productos[..]), ConvertColumn(old(productos[..])).value)
    {
      var built := productos[..];
      var convert := ConvertRecord;
      var precios := new Option<real>[productos.Length];
      var i := 0;
      while i < productos.Length
        invariant 0 <= i <= productos.Length
        invariant productos[..] == built
        invariant Traverse(convert, built[..i]) == Ok(precios[..i])
      {
        var c := ConvertPrice(productos[i].precio);
        assert convert(built[i]) == c;
        TraverseStep(convert, built, i, precios[..i]);
        if c.Err? {
          return Some(c.error);
        }
        precios[i] := c.value;
        assert precios[..i + 1] == precios[..i] + [c.value];
        i := i + 1;
      }
      assert built[..productos.Length] == built;
      assert precios[..productos.Length] == precios[..];
      var converted := precios[..];
      assert ConvertColumn(built) == Ok(converted);
      SetPrices(productos, converted);
      err := None;
    }

    /** The assignment of line 72: each record's price cell is overwritten with its converted value. */
    static method SetPrices(productos: array<Record>, converted: seq<Option<real>>)
      requires |converted| == productos.Length
      modifies productos
      ensures productos[..] == WithPrices(old(productos[..]), converted)
    {
      var i := 0;
      while i < productos.Length
        invariant 0 <= i <= productos.Length
        invariant forall k :: 0 <= k < i ==> productos[k] == old(productos[k]).(precio := Parsed(converted[k]))
        invariant forall k :: i <= k < productos.Length ==> productos[k] == old(productos[k])
      {
        productos[i] := productos[i].(precio := Parsed(converted[i]));
        i := i + 1;
      }
    }

    /**
     * `scrap_info_product`: the records are built, held in an array whose
     * price column is converted in place, and returned reordered; an exception
     * is reported and leaves the value built so far.
     */
    method ScrapInfoProduct(perfil: Option<Profile>, file: Option<Upload>) returns (datos: Datos, reported: Option<Error>)
      ensures (datos, reported) == Scraped(perfil, file)
    {
      datos, reported := EmptyList, None;
      if file.None? {
        return;
      }
      if file.value.NotUtf8? {
        reported := Some(UnicodeDecodeError);
        return;
      }
      if perfil.None? {
        reported := Some(NoProfile);
        return;
      }
      var p := perfil.value;
      var divs := Containers(file.value.doc, p.container);
      var extracted := DefineAll(p, divs);
      if extracted.Err? {
        reported := Some(extracted.error);
        return;
      }
      var info := extracted.value;
      if |info| == 0 {
        datos, reported := Frame([], []), Some(NoPriceColumn);
        return;
      }
      var productos := new Record[|info|](k requires 0 <= k < |info| => info[k]);
      assert productos[..] == info;
      datos := Frame(InitialColumns, info);
      reported := ConvertPriceColumn(productos);
      if reported.None? {
        datos := Frame(FinalColumns, productos[..]);
      }
    }
  }
}
