/**
 * The catalog search: the rows whose code or name contains the query, ignoring
 * case, in catalog order.
 */
module Search {
  import opened Wrappers
  import opened Text
  import opened Catalog

  /** Why a search fails: the catalog does not load, or lacks a column the answer lists. */
  datatype SearchError = LoadFailed(cause: LoadError) | MissingNameColumn | MissingDimensionColumns

  /** A row matches when the lower-cased query occurs in its lower-cased code or name. */
  predicate Matches(p: Product, query: string) {
    Contains(Lower(p.code), Lower(query)) || Contains(Lower(p.name), Lower(query))
  }

  /** The matching products, in catalog order. */
  function Filter(products: seq<Product>, query: string): (r: seq<Product>)
    ensures |r| <= |products|
    ensures forall p {:trigger p in r} :: p in r <==> p in products && Matches(p, query)
    decreases |products|
  {
    if products == [] then []
    else
      var n := |products| - 1;
      var previous := Filter(products[..n], query);
      assert products == products[..n] + [products[n]];
      previous + (if Matches(products[n], query) then [products[n]] else [])
  }

  /**
   * The search route: the query "q" (empty when absent) against a loaded catalog;
   * the answer needs the name and the three dimension columns.
   */
  function Buscar(sheet: Sheet, q: Option<string>): (r: Result<seq<Product>, SearchError>)
    ensures Load(sheet).Failure? ==> r == Failure(LoadFailed(Load(sheet).error))
    ensures r.Success? <==>
      Load(sheet).Success? && NameColumn in sheet.columns && HasDimensions(sheet.columns)
    ensures r.Success? ==>
      forall p :: p in r.value <==> p in Load(sheet).value.products && Matches(p, q.GetOr(""))
    ensures r.Success? ==> r.value == Filter(Load(sheet).value.products, q.GetOr(""))
  {
    match Load(sheet)
    case Failure(e) => Failure(LoadFailed(e))
    case Success(catalog) =>
      if !catalog.hasName then Failure(MissingNameColumn)
      else if !catalog.hasDimensions then Failure(MissingDimensionColumns)
      else Success(Filter(catalog.products, q.GetOr("")))
  }

  /** The filter keeps catalog order: filtering a concatenation concatenates the filtered parts. */
  lemma {:induction false} FilterConcat(a: seq<Product>, b: seq<Product>, query: string)
    ensures Filter(a + b, query) == Filter(a, query) + Filter(b, query)
    decreases |b|
  {
    if b == [] {
      assert a + b == a;
    } else {
      var n := |b| - 1;
      var x := a + b[..n];
      assert (a + b)[..|a + b| - 1] == x;
      assert (a + b)[|a + b| - 1] == b[n];
      var last := if Matches(b[n], query) then [b[n]] else [];
      assert Filter(a + b, query) == Filter(x, query) + last;
      FilterConcat(a, b[..n], query);
      assert (Filter(a, query) + Filter(b[..n], query)) + last
        == Filter(a, query) + (Filter(b[..n], query) + last);
    }
  }

  /** An empty query matches every row, so the whole catalog comes back in order. */
  lemma {:induction false} EmptyQueryKeepsAll(products: seq<Product>)
    ensures Filter(products, "") == products
    decreases |products|
  {
    if products != [] {
      var n := |products| - 1;
      EmptyQueryKeepsAll(products[..n]);
      EmptyQueryMatches(products[n]);
      assert products[..n] + [products[n]] == products;
    }
  }

  /** The empty query matches every row. */
  lemma EmptyQueryMatches(p: Product)
    ensures Matches(p, "")
  {
    ContainsEmpty(Lower(p.code));
    assert Lower("") == "";
  }

  /** The query's case does not matter. */
  lemma QueryCaseInsensitive(products: seq<Product>, query: string)
    ensures Filter(products, Lower(query)) == Filter(products, query)
  {
    LowerIdempotent(query);
    FilterSameMatches(products, Lower(query), query);
  }

  lemma {:induction false} FilterSameMatches(products: seq<Product>, q1: string, q2: string)
    requires Lower(q1) == Lower(q2)
    ensures Filter(products, q1) == Filter(products, q2)
    decreases |products|
  {
    if products != [] {
      FilterSameMatches(products[..|products| - 1], q1, q2);
    }
  }

  /** A row whose code is the query, in any case, is found. */
  lemma CodeFindsItself(products: seq<Product>, i: nat)
    requires i < |products|
    ensures products[i] in Filter(products, products[i].code)
  {
    var c := Lower(products[i].code);
    assert OccursAt(c, c, 0);
  }
}
