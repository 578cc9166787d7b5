/**
 * The admin product list (`ProductManagementPage`): category extraction,
 * the category and search filters, six products per page, the stock
 * counters and badge, and the local list updates after a create, an edit or
 * a delete.
 */
module ProductManagementPage {
  import opened Wrappers
  import opened Text
  import opened Seqs
  import opened Domain
  import Paging

  const ItemsPerPage := 6

  /** The filter value that skips the category filter (compared case-sensitively). */
  const AllFilter := "all"

  ghost predicate StrictlyAscending(xs: seq<string>) {
    forall i, j :: 0 <= i < j < |xs| ==> StrLess(xs[i], xs[j])
  }

  /** The non-empty categories the products carry. */
  ghost function CategoriesOf(products: seq<Product>): set<string> {
    set p | p in products && p.category != "" :: p.category
  }

  /** Adds `c` to an ascending list, unless it is there already. */
  function InsertCategory(c: string, xs: seq<string>): (r: seq<string>)
    ensures forall x :: x in r <==> x in xs || x == c
    decreases |xs|
  {
    if |xs| == 0 then [c]
    else if c == xs[0] then xs
    else if StrLess(c, xs[0]) then [c] + xs
    else [xs[0]] + InsertCategory(c, xs[1..])
  }

  lemma {:induction false} InsertCategoryAscending(c: string, xs: seq<string>)
    requires StrictlyAscending(xs)
    ensures StrictlyAscending(InsertCategory(c, xs))
    decreases |xs|
  {
    if |xs| > 0 && c != xs[0] {
      if StrLess(c, xs[0]) {
        forall j | 1 < j < |xs| + 1
          ensures StrLess(([c] + xs)[0], ([c] + xs)[j])
        {
          StrLessTransitive(c, xs[0], xs[j - 1]);
        }
      } else {
        StrLessTotal(c, xs[0]);
        InsertCategoryAscending(c, xs[1..]);
        var rest := InsertCategory(c, xs[1..]);
        forall j | 0 <= j < |rest|
          ensures StrLess(xs[0], rest[j])
        {
          assert rest[j] in rest;
          if rest[j] != c {
            var k :| 0 <= k < |xs[1..]| && xs[1..][k] == rest[j];
            assert xs[k + 1] == rest[j];
          }
        }
      }
    }
  }

  /**
   * `extractCategories`: the distinct non-empty categories, sorted. Built by
   * inserting each category into a sorted list, which yields the one
   * ascending list with that set of elements, as `Array.from(set).sort()` does.
   */
  function ExtractCategories(products: seq<Product>): (r: seq<string>)
    ensures forall c :: c in r <==> c in CategoriesOf(products)
    decreases |products|
  {
    if |products| == 0 then []
    else
      var init := products[..|products| - 1];
      var last := products[|products| - 1];
      assert products == init + [last];
      var rest := ExtractCategories(init);
      if last.category != "" then InsertCategory(last.category, rest) else rest
  }

  /** The extracted categories are strictly ascending, hence distinct, and none is empty. */
  lemma {:induction false} CategoriesSortedAndDistinct(products: seq<Product>)
    ensures StrictlyAscending(ExtractCategories(products))
    ensures "" !in ExtractCategories(products)
    decreases |products|
  {
    if |products| > 0 {
      var init := products[..|products| - 1];
      CategoriesSortedAndDistinct(init);
      var last := products[|products| - 1];
      if last.category != "" {
        InsertCategoryAscending(last.category, ExtractCategories(init));
      }
    }
  }

  /** The category filter once the filter is not `'all'`: a case-insensitive match. */
  function CategoryFilter(filter: string): Product -> bool {
    (p: Product) => EqualsIgnoreCase(p.category, filter)
  }

  /** The search filter for a non-blank query: the lowered name or description contains the lowered query. */
  function SearchFilter(query: string): Product -> bool {
    (p: Product) => Contains(Lower(p.name), Lower(query)) || Contains(Lower(p.description), Lower(query))
  }

  /** Whether `applyFilters` keeps a product. */
  predicate Kept(p: Product, filter: string, query: string) {
    && (filter == AllFilter || EqualsIgnoreCase(p.category, filter))
    && (IsBlank(query) || Contains(Lower(p.name), Lower(query)) || Contains(Lower(p.description), Lower(query)))
  }

  /** What the first stage lets through, as one predicate. */
  function CategoryStage(filter: string): Product -> bool {
    (p: Product) => filter == AllFilter || EqualsIgnoreCase(p.category, filter)
  }

  /** What the second stage lets through, as one predicate. */
  function SearchStage(query: string): Product -> bool {
    (p: Product) => IsBlank(query) || Contains(Lower(p.name), Lower(query)) || Contains(Lower(p.description), Lower(query))
  }

  /** What both stages let through, as one predicate. */
  function KeptBy(filter: string, query: string): Product -> bool {
    (p: Product) => Kept(p, filter, query)
  }

  /** The first stage of `applyFilters`: the category filter unless it is `'all'`. */
  function ByCategory(products: seq<Product>, filter: string): (r: seq<Product>)
    ensures r == Filter(products, CategoryStage(filter))
    ensures forall p :: p in r <==> p in products && (filter == AllFilter || EqualsIgnoreCase(p.category, filter))
    ensures IsSubsequence(r, products)
  {
    if filter != AllFilter then
      FilterIsSubsequence(products, CategoryFilter(filter));
      FilterExtensional(products, CategoryFilter(filter), CategoryStage(filter));
      Filter(products, CategoryFilter(filter))
    else
      FilterAll(products, CategoryStage(filter));
      FilterIsSubsequence(products, CategoryStage(filter));
      products
  }

  /** The second stage: the search filter unless the query trims to nothing. */
  function BySearch(products: seq<Product>, query: string): (r: seq<Product>)
    ensures r == Filter(products, SearchStage(query))
    ensures forall p :: p in r <==> (p in products
      && (IsBlank(query) || Contains(Lower(p.name), Lower(query)) || Contains(Lower(p.description), Lower(query))))
    ensures IsSubsequence(r, products)
  {
    TrimEmptyIffBlank(query);
    if |Trim(query)| > 0 then
      FilterIsSubsequence(products, SearchFilter(query));
      FilterExtensional(products, SearchFilter(query), SearchStage(query));
      Filter(products, SearchFilter(query))
    else
      FilterAll(products, SearchStage(query));
      FilterIsSubsequence(products, SearchStage(query));
      products
  }

  /**
   * `applyFilters`' filtering: by category unless the filter is `'all'`, then
   * by a non-blank query. The two stages together are one `filter` by both
   * conditions: what is kept keeps its order and every copy.
   */
  function ApplyFilters(products: seq<Product>, filter: string, query: string): (r: seq<Product>)
    ensures r == Filter(products, KeptBy(filter, query))
    ensures forall p :: multiset(r)[p] == if Kept(p, filter, query) then multiset(products)[p] else 0
    ensures forall p :: p in r <==> p in products && Kept(p, filter, query)
    ensures IsSubsequence(r, products)
  {
    var byCategory := ByCategory(products, filter);
    SubsequenceTransitive(BySearch(byCategory, query), byCategory, products);
    FilterFilter(products, CategoryStage(filter), SearchStage(query), KeptBy(filter, query));
    FilterMultiplicity(products, KeptBy(filter, query));
    BySearch(byCategory, query)
  }

  /** With the `'all'` filter and a blank query every product is listed, in order. */
  lemma NoFilterListsAll(products: seq<Product>, query: string)
    requires IsBlank(query)
    ensures ApplyFilters(products, AllFilter, query) == products
  {
    TrimEmptyIffBlank(query);
  }

  /** The page's state: the loaded products, the category buttons, the filter inputs and the listing. */
  datatype Page = Page(
    products: seq<Product>,
    categories: seq<string>,
    activeFilter: string,
    searchQuery: string,
    listing: Paging.Listing<Product>)

  const Initial: Page := Page([], [], AllFilter, "", Paging.Listing([], 1, 0, []))

  /** The listing shows the filtered products, with the page count and page slice that go with them. */
  ghost predicate Shows(st: Page) {
    && st.listing.filtered == ApplyFilters(st.products, st.activeFilter, st.searchQuery)
    && Paging.Coherent(st.listing, ItemsPerPage)
  }

  /** `applyFilters` followed by `updatePaginatedProducts`, on the current page. */
  function Refresh(st: Page): (r: Page)
    ensures Shows(r)
    ensures r.listing.currentPage == st.listing.currentPage
    ensures r.products == st.products && r.activeFilter == st.activeFilter && r.searchQuery == st.searchQuery
    ensures r == st.(listing := r.listing)
  {
    var filtered := ApplyFilters(st.products, st.activeFilter, st.searchQuery);
    st.(listing := Paging.Publish(filtered, st.listing.currentPage, ItemsPerPage))
  }

  /** The products arrived: store them, rebuild the categories and the listing. */
  function Loaded(st: Page, products: seq<Product>): (r: Page)
    ensures Shows(r) && r.products == products
    ensures forall c :: c in r.categories <==> c in CategoriesOf(products)
    ensures r == st.(products := products, categories := ExtractCategories(products), listing := r.listing)
    ensures r.listing.currentPage == st.listing.currentPage
  {
    Refresh(st.(products := products, categories := ExtractCategories(products)))
  }

  /** `filterProducts(category)`: select the filter and go back to page 1. */
  function FilterProducts(st: Page, category: string): (r: Page)
    ensures Shows(r) && r.activeFilter == category && r.listing.currentPage == 1
    ensures r == st.(activeFilter := category, listing := r.listing)
  {
    Refresh(st.(activeFilter := category, listing := st.listing.(currentPage := 1)))
  }

  /** `onSearchChange()` after the bound query became `query`: back to page 1. */
  function SearchChanged(st: Page, query: string): (r: Page)
    ensures Shows(r) && r.searchQuery == query && r.listing.currentPage == 1
    ensures r == st.(searchQuery := query, listing := r.listing)
  {
    Refresh(st.(searchQuery := query, listing := st.listing.(currentPage := 1)))
  }

  /** `goToPage(page)`. */
  function GoToPage(st: Page, page: int): (r: Page)
    ensures Shows(st) ==> Shows(r)
    ensures 1 <= page <= st.listing.totalPages ==> r.listing.currentPage == page
    ensures !(1 <= page <= st.listing.totalPages) ==> r == st
    ensures r == st.(listing := r.listing) && r.listing.filtered == st.listing.filtered
  {
    st.(listing := Paging.GoTo(st.listing, page, ItemsPerPage))
  }

  /** `getVisiblePages()`. */
  method VisiblePages(st: Page) returns (pages: seq<int>)
    ensures pages == Paging.IntendedWindow(st.listing.totalPages, st.listing.currentPage)
  {
    pages := Paging.VisiblePages(st.listing.totalPages, st.listing.currentPage);
  }

  predicate LowStock(p: Product) {
    p.stock < 10 && p.stock > 0
  }

  predicate OutOfStock(p: Product) {
    p.stock == 0
  }

  /** `getLowStockCount()`: stock strictly between 0 and 10. */
  function LowStockCount(products: seq<Product>): (r: nat)
    ensures r <= |products|
    ensures r > 0 <==> exists p :: p in products && 0 < p.stock < 10
  {
    CountPositive(products, LowStock);
    Count(products, LowStock)
  }

  /** `getOutOfStockCount()`: stock exactly 0. */
  function OutOfStockCount(products: seq<Product>): (r: nat)
    ensures r <= |products|
    ensures r > 0 <==> exists p :: p in products && p.stock == 0
  {
    CountPositive(products, OutOfStock);
    Count(products, OutOfStock)
  }

  /** No product is both low on stock and out of stock, so the two counters never exceed the total. */
  lemma StockCountersDisjoint(products: seq<Product>)
    ensures LowStockCount(products) + OutOfStockCount(products) <= |products|
  {
    CountDisjoint(products, LowStock, OutOfStock);
  }

  /** `getStockBadgeClass(stock)`. */
  function StockBadgeClass(stock: int): (r: string)
    ensures r == "stock-out" <==> stock == 0
    ensures r == "stock-low" <==> stock != 0 && stock < 10
    ensures r == "stock-good" <==> stock >= 10
  {
    if stock == 0 then "stock-out" else if stock < 10 then "stock-low" else "stock-good"
  }

  /**
   * The badge and the counters use the same thresholds on non-negative
   * stock; a negative stock gets the low badge but is counted in neither.
   */
  lemma BadgeAgreesWithCounters(p: Product)
    ensures StockBadgeClass(p.stock) == "stock-out" <==> p.stock == 0
    ensures p.stock >= 0 ==> (StockBadgeClass(p.stock) == "stock-low" <==> (p.stock < 10 && p.stock > 0))
    ensures p.stock < 0 ==> StockBadgeClass(p.stock) == "stock-low"
  {
  }

  /** The fields of the create form that the guard inspects and the service receives. */
  datatype ProductForm = ProductForm(
    name: string,
    description: string,
    price: int,
    stock: int,
    category: string,
    base64Image: string)

  /** What the create call resolved to: the created product, a null product, or an error. */
  datatype CreateReply = Created(product: Product) | NullProduct | CreateError

  datatype CreateResult = CreateResult(page: Page, requested: bool, alert: Option<string>)

  const MissingFieldsAlert := "Please fill in all required fields"
  const CreateFailedAlert := "Failed to create product. Please try again."

  /**
   * `createProduct()`: an empty name or category is rejected before any
   * request; a created product is put first in the list and the categories
   * and listing are rebuilt.
   */
  function CreateProduct(st: Page, form: ProductForm, reply: CreateReply): (r: CreateResult)
    ensures (form.name == "" || form.category == "") <==> r.alert == Some(MissingFieldsAlert)
    ensures form.name == "" || form.category == "" ==> !r.requested && r.page == st
    ensures form.name != "" && form.category != "" ==> r.requested
    ensures r.requested && reply.Created? ==>
      r.page.products == [reply.product] + st.products && Shows(r.page)
      && r.page.categories == ExtractCategories(r.page.products)
      && r.page == st.(products := r.page.products, categories := r.page.categories, listing := r.page.listing)
      && r.page.listing.currentPage == st.listing.currentPage
    ensures r.requested && !reply.Created? ==> r.page == st
  {
    if form.name == "" || form.category == "" then CreateResult(st, false, Some(MissingFieldsAlert))
    else match reply
      case Created(product) =>
        var products := [product] + st.products;
        CreateResult(Refresh(st.(products := products, categories := ExtractCategories(products))), true, None)
      case NullProduct => CreateResult(st, true, None)
      case CreateError => CreateResult(st, true, Some(CreateFailedAlert))
  }

  /** The first index holding a product with that id. */
  function IndexOfId(products: seq<Product>, id: int): (r: Option<nat>)
    ensures r.Some? ==> r.value < |products| && products[r.value].id == id
    ensures r.Some? ==> forall j :: 0 <= j < r.value ==> products[j].id != id
    ensures r.None? ==> forall j :: 0 <= j < |products| ==> products[j].id != id
    decreases |products|
  {
    if |products| == 0 then None
    else if products[0].id == id then Some(0)
    else match IndexOfId(products[1..], id)
      case None => None
      case Some(k) => Some(k + 1)
  }

  /** `updateProduct()` once the service answered: the first product with the same id is replaced. */
  function Updated(st: Page, updated: Option<Product>): (r: Page)
    ensures updated.None? ==> r == st
    ensures updated.Some? ==> |r.products| == |st.products| && Shows(r)
    ensures updated.Some? ==> match IndexOfId(st.products, updated.value.id)
      case None => r.products == st.products
      case Some(i) => r.products == st.products[i := updated.value]
    ensures updated.Some? ==>
      && r.categories == ExtractCategories(r.products)
      && r == st.(products := r.products, categories := r.categories, listing := r.listing)
      && r.listing.currentPage == st.listing.currentPage
  {
    match updated
    case None => st
    case Some(u) =>
      var products := match IndexOfId(st.products, u.id)
        case None => st.products
        case Some(i) => st.products[i := u];
      Refresh(st.(products := products, categories := ExtractCategories(products)))
  }

  /** What the delete call resolved to: the service's success flag, or an error. */
  datatype DeleteReply = Deleted(success: bool) | DeleteError

  /** The products a delete of `id` keeps. */
  function OtherId(id: int): Product -> bool {
    (p: Product) => p.id != id
  }

  /**
   * `confirmDelete()`: after a successful delete every product with the
   * selected id leaves the list, and every other product stays, each copy
   * of it, in order.
   */
  function ConfirmDelete(st: Page, selected: Option<Product>, reply: DeleteReply): (r: Page)
    ensures selected.None? || reply != Deleted(true) ==> r == st
    ensures selected.Some? && reply == Deleted(true) ==>
      && Shows(r)
      && r.products == Filter(st.products, OtherId(selected.value.id))
      && (forall p :: multiset(r.products)[p] == if p.id != selected.value.id then multiset(st.products)[p] else 0)
      && (forall p :: p in r.products <==> p in st.products && p.id != selected.value.id)
      && IsSubsequence(r.products, st.products)
      && r.categories == ExtractCategories(r.products)
      && r == st.(products := r.products, categories := r.categories, listing := r.listing)
      && r.listing.currentPage == st.listing.currentPage
  {
    match selected
    case None => st
    case Some(s) =>
      if reply == Deleted(true) then
        var products := Filter(st.products, OtherId(s.id));
        FilterIsSubsequence(st.products, OtherId(s.id));
        FilterMultiplicity(st.products, OtherId(s.id));
        Refresh(st.(products := products, categories := ExtractCategories(products)))
      else st
  }
}
