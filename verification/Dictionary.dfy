/** NVD's CPE dictionary: a vendor's product catalogue, read one page at a time. */
module Dictionary {
  import opened Text
  import opened Sequences
  import Cpe
  import opened Service

  /** One reply of the dictionary: the rows the service says it holds, and the cpeNames it sent. */
  datatype Rows = Rows(total: int, names: seq<string>)

  /** What the service replies for a vendor prefix and a search term ("" for none): any function at all. */
  type DictionaryServer = (string, string) -> Reply<Rows>

  /** A vendor's products, by token. */
  datatype Catalogue = Catalogue(
    vendor: string, products: seq<string>, totalRows: int, narrowed: string, complete: bool)
  {
    predicate Exists() { totalRows > 0 }

    /** Some product differs from the token by the case of its letters at most. */
    predicate Has(token: string) { exists p <- products :: EqualFold(p, token) }
  }

  predicate Readable(name: string) {
    |Split(name, ':')| >= 5
  }

  function ProductOf(name: string): Option<string> {
    if Readable(name) then Some(Split(name, ':')[4]) else None
  }

  /** The distinct product tokens of a page, sorted; None for a page with a malformed row. */
  function Products(names: seq<string>): Option<seq<string>> {
    if forall n <- names :: Readable(n)
    then Some(StableSort(FirstByKey(FilterMap(names, ProductOf), Cpe.Itself), StringLeq))
    else None
  }

  method ParseRows(names: seq<string>) returns (products: Option<seq<string>>)
    ensures products == Products(names)
  {
    hide Products;
    var tokens: seq<string> := [];
    for i := 0 to |names|
      invariant forall n <- names[..i] :: Readable(n)
      invariant tokens == FilterMap(names[..i], ProductOf)
    {
      var product := ProductOf(names[i]);
      if product.None? {
        UnreadableRow(names, i);
        return None;
      }
      assert names[..i + 1] == names[..i] + [names[i]];
      FilterMapSnoc(names[..i], names[i], ProductOf);
      tokens := tokens + [product.value];
    }
    assert names[..|names|] == names;
    ReadableRows(names);
    var kept := KeepFirst(tokens, Cpe.Itself);
    products := Some(StableSort(kept, StringLeq));
  }

  lemma UnreadableRow(names: seq<string>, i: nat)
    requires i < |names| && ProductOf(names[i]).None?
    ensures Products(names) == None
  {
    assert names[i] in names;
  }

  lemma ReadableRows(names: seq<string>)
    requires forall n <- names :: Readable(n)
    ensures Products(names) == Some(StableSort(FirstByKey(FilterMap(names, ProductOf), Cpe.Itself), StringLeq))
  {}

  lemma StringOrdering()
    ensures Ordering(StringLeq)
  {
    forall a, b ensures StringLeq(a, b) || StringLeq(b, a) {
      StringLeqTotal(a, b);
    }
    forall a, b, c | StringLeq(a, b) && StringLeq(b, c) ensures StringLeq(a, c) {
      StringLeqTransitive(a, b, c);
    }
  }

  /** The catalogue lists the product of every row and nothing else, sorted. */
  lemma ProductsExact(names: seq<string>)
    requires Products(names).Some?
    ensures var products := Products(names).value;
      && Sorted(products, StringLeq) && DistinctKeys(products, Cpe.Itself)
      && forall t :: t in products <==> exists n :: n in names && ProductOf(n) == Some(t)
  {
    var tokens := FilterMap(names, ProductOf);
    var kept := FirstByKey(tokens, Cpe.Itself);
    FilterMapMembers(names, ProductOf);
    FirstByKeyKeys(tokens, Cpe.Itself);
    StringOrdering();
    SortKeepsKeys(kept, StringLeq, Cpe.Itself);
    forall t ensures t in Products(names).value <==> exists n :: n in names && ProductOf(n) == Some(t) {
      assert t in Products(names).value <==> t in multiset(Products(names).value);
      assert t in kept <==> t in multiset(kept);
      if t in kept {
        var i :| 0 <= i < |names| && ProductOf(names[i]) == Some(t);
        assert names[i] in names;
      }
      if n :| n in names && ProductOf(n) == Some(t) {
        var i :| 0 <= i < |names| && names[i] == n;
        FirstByKeyCovers(tokens, Cpe.Itself, t);
      }
    }
  }

  /** A token is one component: it holds no separator. */
  lemma ProductsAreComponents(names: seq<string>)
    requires Products(names).Some?
    ensures forall t <- Products(names).value :: ':' !in t
  {
    ProductsExact(names);
    forall t <- Products(names).value ensures ':' !in t {
      var n :| n in names && ProductOf(n) == Some(t);
      assert Split(n, ':')[4] in Split(n, ':');
    }
  }

  function CataloguePage(server: DictionaryServer, vendor: string, narrow: string): Reply<Catalogue> {
    var term := TrimSpace(narrow);
    match server(vendor, term)
    case TimedOut => TimedOut
    case Broken(reason) => Broken(reason)
    case Answered(page) =>
      match Products(page.names)
      case None => Broken("malformed cpeName")
      case Some(products) =>
        Answered(Catalogue(vendor, products, page.total, term, |page.names| >= page.total))
  }

  /** Reads one page, narrowing by keyword a vendor too large for it unless that finds nothing. */
  function VendorProducts(server: DictionaryServer, vendor: string, narrow: string): Reply<Catalogue> {
    var whole := CataloguePage(server, vendor, "");
    if !whole.Answered? || whole.value.complete || Blank(narrow) then whole else
    var narrowed := CataloguePage(server, vendor, narrow);
    if narrowed.Answered? && !narrowed.value.Exists() then whole else narrowed
  }

  /** The catalogue of one page: the fifth components of its rows, and whether it sent as many as it claims. */
  ghost predicate OfPage(cat: Catalogue, vendor: string, page: Rows, term: string) {
    && cat.vendor == vendor && cat.totalRows == page.total && cat.narrowed == term
    && (cat.complete <==> |page.names| >= page.total)
    && (forall n <- page.names :: |Split(n, ':')| >= 5)
    && (forall t :: t in cat.products <==> exists n :: n in page.names && Split(n, ':')[4] == t)
    && (forall i, j :: 0 <= i < j < |cat.products| ==> Precedes(cat.products[i], cat.products[j]))
  }

  /** What one reply amounts to: the same error, an error of its own for a malformed row, or its page's catalogue. */
  ghost predicate Amounts(reply: Reply<Rows>, out: Reply<Catalogue>, vendor: string, term: string) {
    match reply
    case TimedOut => out == TimedOut
    case Broken(reason) => out == Broken(reason)
    case Answered(page) =>
      if Malformed(page) then out.Broken?
      else out.Answered? && OfPage(out.value, vendor, page, term)
  }

  lemma PageExact(server: DictionaryServer, vendor: string, narrow: string)
    ensures Amounts(server(vendor, TrimSpace(narrow)), CataloguePage(server, vendor, narrow), vendor, TrimSpace(narrow))
  {
    var reply := server(vendor, TrimSpace(narrow));
    if reply.Answered? {
      var names := reply.value.names;
      if Products(names).Some? {
        ProductsExact(names);
        var products := Products(names).value;
        hide Products, StringLeq;
        forall t ensures t in products <==> exists n :: n in names && Split(n, ':')[4] == t {
          if n :| n in names && Split(n, ':')[4] == t {
            assert ProductOf(n) == Some(t);
          }
          if t in products {
            var n :| n in names && ProductOf(n) == Some(t);
            assert Split(n, ':')[4] == t;
          }
        }
        forall i, j | 0 <= i < j < |products|
          ensures Precedes(products[i], products[j])
        {
          StringLeqExact(products[i], products[j]);
          assert Cpe.Itself(products[i]) != Cpe.Itself(products[j]);
        }
      }
    }
  }

  predicate Malformed(page: Rows) {
    exists n <- page.names :: |Split(n, ':')| < 5
  }

  /**
   Exactly when the keyword is used: the first page stands if it is an error, is all there is, or there is no
   keyword; otherwise the keyword's page does, errors included, unless it is in order and finds nothing.
   */
  lemma VendorProductsExact(server: DictionaryServer, vendor: string, narrow: string)
    ensures var term, out := TrimSpace(narrow), VendorProducts(server, vendor, narrow);
      var first, second := server(vendor, ""), server(vendor, term);
      if !first.Answered? || Malformed(first.value) || |first.value.names| >= first.value.total || term == ""
         || (second.Answered? && !Malformed(second.value) && second.value.total <= 0)
      then Amounts(first, out, vendor, "")
      else Amounts(second, out, vendor, term)
  {
    assert TrimSpace("") == "";
    PageExact(server, vendor, "");
    PageExact(server, vendor, narrow);
    hide CataloguePage, TrimSpace;
  }

  /**
   A keyword never turns a registered vendor into an unknown one, nor the reverse; and a catalogue that
   calls itself complete and unnarrowed carried every row the service claims to hold.
   */
  lemma NarrowingKeepsExistence(server: DictionaryServer, vendor: string, narrow: string)
    requires VendorProducts(server, vendor, narrow).Answered?
    ensures var cat := VendorProducts(server, vendor, narrow).value;
      && server(vendor, "").Answered?
      && cat.vendor == vendor
      && (cat.Exists() <==> server(vendor, "").value.total > 0)
      && (cat.narrowed != "" ==>
            && cat.narrowed == TrimSpace(narrow)
            && |server(vendor, "").value.names| < server(vendor, "").value.total)
      && (cat.narrowed == "" && cat.complete ==>
            |server(vendor, "").value.names| >= server(vendor, "").value.total)
  {
    assert TrimSpace("") == "";
  }

  lemma CatalogueTokens(server: DictionaryServer, vendor: string, narrow: string)
    requires VendorProducts(server, vendor, narrow).Answered?
    ensures forall t <- VendorProducts(server, vendor, narrow).value.products :: ':' !in t
  {
    var cat := VendorProducts(server, vendor, narrow).value;
    var page := server(vendor, cat.narrowed).value;
    assert TrimSpace("") == "";
    ProductsAreComponents(page.names);
  }
}
