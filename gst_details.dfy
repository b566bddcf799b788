/**
 * The GST reference table: every product's GST record, narrowed by a
 * category or by a free-text search, shown five rows at a time, with the
 * GST amount of each product in the table and in the chart below it.
 */
module GstDetails {
  import opened Common
  import opened Text
  import opened Records
  import opened Sequences

  /** Rows shown on one page of the table. */
  const RowsPerPage: nat := 5

  // ---------------------------------------------------------------------------
  // GST amount
  // ---------------------------------------------------------------------------

  /** `product_cost * (gst_percentage / 100)`, the amount both the table and the chart show. */
  function GstAmount(cost: real, percentage: nat): (r: real)
    ensures r * 100.0 == cost * percentage as real
    ensures percentage == 0 ==> r == 0.0
    ensures 0.0 <= cost && percentage <= 100 ==> 0.0 <= r <= cost
  {
    cost * ((percentage as real) / 100.0)
  }

  /** One row of the table. */
  datatype TableRow = TableRow(
    id: nat, title: string, brand: string, category: string,
    productCost: real, gstPercentage: nat, gstAmount: real)

  /** The row shown for a product: its own fields, and its GST amount computed from cost and rate. */
  function RowOf(p: GstRecord): (row: TableRow)
    ensures row.id == p.id && row.title == p.title && row.brand == p.brand && row.category == p.category
    ensures row.productCost == p.productCost && row.gstPercentage == p.gstPercentage
    ensures row.gstAmount * 100.0 == p.productCost * p.gstPercentage as real
  {
    TableRow(p.id, p.title, p.brand, p.category, p.productCost, p.gstPercentage,
             GstAmount(p.productCost, p.gstPercentage))
  }

  /** One bar of the chart: a product title and its GST amount. */
  datatype Bar = Bar(title: string, amount: real)

  /** The chart's bars: one per listed product, in list order. */
  function ChartBars(filtered: seq<GstRecord>): (bars: seq<Bar>)
    ensures |bars| == |filtered|
    ensures forall i :: 0 <= i < |bars| ==> bars[i].title == filtered[i].title
    ensures forall i :: 0 <= i < |bars| ==>
              bars[i].amount * 100.0 == filtered[i].productCost * filtered[i].gstPercentage as real
  {
    seq(|filtered|, i requires 0 <= i < |filtered| =>
      Bar(filtered[i].title, GstAmount(filtered[i].productCost, filtered[i].gstPercentage)))
  }

  // ---------------------------------------------------------------------------
  // Category filter and search
  // ---------------------------------------------------------------------------

  /** Accepts the products of category c. */
  function InCategory(c: string): GstRecord -> bool
  {
    (p: GstRecord) => p.category == c
  }

  /** `handleCategoryChange`'s list: every product for the empty choice, else the category's products. */
  function CategoryFilter(products: seq<GstRecord>, c: string): (r: seq<GstRecord>)
    ensures c == "" ==> r == products
    ensures c != "" ==> forall p :: p in r <==> p in products && p.category == c
    ensures c != "" ==> forall p :: multiset(r)[p] == if p.category == c then multiset(products)[p] else 0
    ensures IsSubsequence(r, products)
  {
    if c == "" then
      SubsequenceOfItself(products);
      products
    else
      FilterIsSubsequence(products, InCategory(c));
      FilterMultiplicity(products, InCategory(c));
      Filter(products, InCategory(c))
  }

  /**
   * The search rule: the lower-cased title or brand contains the lower-cased
   * query, or the id's or the GST percentage's decimal digits contain the
   * query as typed.
   */
  predicate Matches(p: GstRecord, query: string)
    ensures Contains(ToLower(p.title), ToLower(query)) ==> Matches(p, query)
    ensures Contains(NatToString(p.id), query) ==> Matches(p, query)
  {
    || Contains(ToLower(p.title), ToLower(query))
    || Contains(ToLower(p.brand), ToLower(query))
    || Contains(NatToString(p.id), query)
    || Contains(NatToString(p.gstPercentage), query)
  }

  /** Accepts the products that match the query. */
  function MatchesQuery(query: string): GstRecord -> bool
  {
    (p: GstRecord) => Matches(p, query)
  }

  /** The empty query matches every product. */
  lemma EmptyQueryKeepsAll(products: seq<GstRecord>)
    ensures Filter(products, MatchesQuery("")) == products
  {
    forall i | 0 <= i < |products|
      ensures MatchesQuery("")(products[i])
    {
      ContainsEmpty(ToLower(products[i].title));
    }
    FilterKeepsAll(products, MatchesQuery(""));
  }

  /** `handleSearchChange`'s list: the products, of every category, that match the query. */
  function SearchFilter(products: seq<GstRecord>, query: string): (r: seq<GstRecord>)
    ensures forall p :: p in r <==> p in products && Matches(p, query)
    ensures forall p :: multiset(r)[p] == if Matches(p, query) then multiset(products)[p] else 0
    ensures IsSubsequence(r, products)
    ensures query == "" ==> r == products
  {
    FilterIsSubsequence(products, MatchesQuery(query));
    FilterMultiplicity(products, MatchesQuery(query));
    if query == "" then EmptyQueryKeepsAll(products); Filter(products, MatchesQuery(query))
    else Filter(products, MatchesQuery(query))
  }

  /** A query with a character that is not a digit can only match a title or a brand. */
  lemma NonDigitQueryMatchesText(p: GstRecord, query: string)
    requires !AllDigits(query)
    ensures Matches(p, query) <==>
            Contains(ToLower(p.title), ToLower(query)) || Contains(ToLower(p.brand), ToLower(query))
  {
    NatToStringDigits(p.id);
    NatToStringDigits(p.gstPercentage);
    if Contains(NatToString(p.id), query) {
      ContainsInDigits(NatToString(p.id), query);
    }
    if Contains(NatToString(p.gstPercentage), query) {
      ContainsInDigits(NatToString(p.gstPercentage), query);
    }
  }

  /** Lower-casing keeps digits and non-digits apart. */
  lemma ToLowerKeepsDigits(s: string)
    ensures AllDigits(ToLower(s)) <==> AllDigits(s)
  {
    if !AllDigits(s) {
      var i :| 0 <= i < |s| && !IsDigit(s[i]);
      assert !IsDigit(ToLower(s)[i]);
    }
  }

  /** The search does not depend on the case of the letters typed. */
  lemma SearchIgnoresCase(p: GstRecord, query: string)
    ensures Matches(p, ToLower(query)) <==> Matches(p, query)
  {
    ToLowerIdempotent(query);
    ToLowerKeepsDigits(query);
    if AllDigits(query) {
      assert forall i :: 0 <= i < |query| ==> !IsUpper(query[i]);
      ToLowerNoUpper(query);
    } else {
      NonDigitQueryMatchesText(p, query);
      NonDigitQueryMatchesText(p, ToLower(query));
    }
  }

  // ---------------------------------------------------------------------------
  // Pagination
  // ---------------------------------------------------------------------------

  /** `Math.ceil(n / 5)`: the number of pages that n rows fill. */
  function TotalPages(n: nat): (r: nat)
    ensures r * RowsPerPage >= n
    ensures r > 0 ==> (r - 1) * RowsPerPage < n
  {
    (n + RowsPerPage - 1) / RowsPerPage
  }

  /** `filtered.slice((page - 1) * 5, page * 5)`: the rows shown on a page. */
  function PageItems<T>(filtered: seq<T>, page: int): (r: seq<T>)
    ensures |r| <= RowsPerPage
    ensures page >= 1 ==>
              r == filtered[Min((page - 1) * RowsPerPage, |filtered|)..Min(page * RowsPerPage, |filtered|)]
  {
    Slice(filtered, page * RowsPerPage - RowsPerPage, page * RowsPerPage)
  }

  /** The pages 1 to count, one after another. */
  function PagesUpTo<T>(filtered: seq<T>, count: nat): seq<T>
  {
    if count == 0 then [] else PagesUpTo(filtered, count - 1) + PageItems(filtered, count)
  }

  /** The first count pages hold exactly the first count * 5 rows. */
  lemma {:induction false} PagesUpToIsPrefix<T>(filtered: seq<T>, count: nat)
    ensures PagesUpTo(filtered, count) == filtered[..Min(count * RowsPerPage, |filtered|)]
  {
    if count > 0 {
      PagesUpToIsPrefix(filtered, count - 1);
      var a, b := Min((count - 1) * RowsPerPage, |filtered|), Min(count * RowsPerPage, |filtered|);
      assert filtered[..a] + filtered[a..b] == filtered[..b];
    }
  }

  /** Pages 1 to TotalPages, in order, show every row exactly once. */
  lemma PagesCoverList<T>(filtered: seq<T>)
    ensures PagesUpTo(filtered, TotalPages(|filtered|)) == filtered
  {
    PagesUpToIsPrefix(filtered, TotalPages(|filtered|));
    assert filtered[..|filtered|] == filtered;
  }

  /** Each page that has a button holds between one and five rows; later pages are empty. */
  lemma PageSize<T>(filtered: seq<T>, page: int)
    ensures 1 <= page <= TotalPages(|filtered|) ==> 1 <= |PageItems(filtered, page)| <= RowsPerPage
    ensures page > TotalPages(|filtered|) ==> PageItems(filtered, page) == []
  {
  }

  /** Row i is the (i % 5)-th row of page i / 5 + 1, which has a button. */
  lemma PageOfRow<T>(filtered: seq<T>, i: nat)
    requires i < |filtered|
    ensures 1 <= i / RowsPerPage + 1 <= TotalPages(|filtered|)
    ensures i % RowsPerPage < |PageItems(filtered, i / RowsPerPage + 1)|
    ensures PageItems(filtered, i / RowsPerPage + 1)[i % RowsPerPage] == filtered[i]
  {
  }

  /** A row of the table and the chart bar for the same product show the same GST amount. */
  lemma TableAgreesWithChart(filtered: seq<GstRecord>, page: int, k: nat)
    requires page >= 1 && k < |PageItems(filtered, page)|
    ensures (page - 1) * RowsPerPage + k < |ChartBars(filtered)|
    ensures RowOf(PageItems(filtered, page)[k]).gstAmount
            == ChartBars(filtered)[(page - 1) * RowsPerPage + k].amount
  {
  }

  // ---------------------------------------------------------------------------
  // The page's state
  // ---------------------------------------------------------------------------

  /** The state the GST reference page keeps between renders, and its event handlers. */
  class GstDetailsPage {
    var products: seq<GstRecord>
    var filteredProducts: seq<GstRecord>
    var searchQuery: string
    var category: string
    var currentPage: int

    /** The first render: nothing loaded, no choice made, page 1. */
    constructor ()
      ensures products == [] && filteredProducts == []
      ensures searchQuery == "" && category == "" && currentPage == 1
    {
      products := [];
      filteredProducts := [];
      searchQuery := "";
      category := "";
      currentPage := 1;
    }

    /** The initial fetch: on success both lists become the response; on failure nothing changes. */
    method LoadProducts(response: Response<seq<GstRecord>>)
      modifies this`products, this`filteredProducts
      ensures response.Ok? ==> products == filteredProducts == response.data
      ensures response.Failed? ==> products == old(products) && filteredProducts == old(filteredProducts)
    {
      if response.Ok? {
        products := response.data;
        filteredProducts := response.data;
      }
    }

    /** `handleCategoryChange`: records the choice, lists its products and returns to page 1. */
    method HandleCategoryChange(value: string)
      modifies this`category, this`filteredProducts, this`currentPage
      ensures category == value && currentPage == 1
      ensures filteredProducts == CategoryFilter(products, value)
    {
      category := value;
      if value == "" {
        filteredProducts := products;
      } else {
        filteredProducts := Filter(products, InCategory(value));
      }
      currentPage := 1;
    }

    /**
     * `handleSearchChange`: records the query, lists the matching products
     * from the whole list (the selected category plays no part) and returns
     * to page 1.
     */
    method HandleSearchChange(query: string)
      modifies this`searchQuery, this`filteredProducts, this`currentPage
      ensures searchQuery == query && currentPage == 1
      ensures filteredProducts == SearchFilter(products, query)
    {
      searchQuery := query;
      filteredProducts := Filter(products, MatchesQuery(query));
      currentPage := 1;
    }

    /** `paginate`: shows the chosen page. */
    method Paginate(pageNumber: int)
      modifies this`currentPage
      ensures currentPage == pageNumber
    {
      currentPage := pageNumber;
    }

    /** The rows of the table as rendered now. */
    function CurrentRows(): (rows: seq<TableRow>)
      reads this
      ensures |rows| == |PageItems(filteredProducts, currentPage)| <= RowsPerPage
      ensures forall k :: 0 <= k < |rows| ==> rows[k] == RowOf(PageItems(filteredProducts, currentPage)[k])
    {
      var items := PageItems(filteredProducts, currentPage);
      seq(|items|, k requires 0 <= k < |items| => RowOf(items[k]))
    }

    /** The number of page buttons rendered now. */
    function PageCount(): (n: nat)
      reads this
      ensures n * RowsPerPage >= |filteredProducts|
      ensures n > 0 ==> (n - 1) * RowsPerPage < |filteredProducts|
      ensures n == 0 <==> filteredProducts == []
    {
      TotalPages(|filteredProducts|)
    }
  }

  // ---------------------------------------------------------------------------
  // Scenarios
  // ---------------------------------------------------------------------------

  /**
   * A search typed after choosing a category searches all products: the
   * category stays selected in the drop-down but no longer narrows the list.
   */
  method SearchAfterCategory(page: GstDetailsPage, c: string, query: string)
    modifies page
    ensures page.category == c && page.searchQuery == query && page.currentPage == 1
    ensures page.filteredProducts == SearchFilter(page.products, query)
    ensures page.products == old(page.products)
  {
    page.HandleCategoryChange(c);
    page.HandleSearchChange(query);
  }

  /**
   * A category chosen after a search replaces its result: the query stays in
   * the search box but no longer narrows the list.
   */
  method CategoryAfterSearch(page: GstDetailsPage, query: string, c: string)
    modifies page
    ensures page.category == c && page.searchQuery == query && page.currentPage == 1
    ensures page.filteredProducts == CategoryFilter(page.products, c)
    ensures page.products == old(page.products)
  {
    page.HandleSearchChange(query);
    page.HandleCategoryChange(c);
  }
}
