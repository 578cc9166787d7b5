/**
 * The signed-in user's order history (`OrdersPage`): the authentication
 * guard, the orders sorted newest first, four orders per page, and the
 * per-order item count.
 */
module OrdersPage {
  import opened Wrappers
  import opened Seqs
  import opened Domain
  import Paging
  import Sorting
  import AuthService

  const ItemsPerPage := 4

  const NotAuthenticated := "User not authenticated"
  const UserIdNotFound := "User ID not found"
  const LoadFailed := "Failed to load orders. Please try again later."

  function CreatedAt(o: Order): int {
    o.createdAt
  }

  /** The page: the error line, the user id it loads for, and the listing of the sorted orders. */
  datatype Page = Page(error: Option<string>, userId: Option<string>, listing: Paging.Listing<Order>)

  const Initial: Page := Page(None, None, Paging.Listing([], 1, 0, []))

  /** A request the page makes: the orders of one user. */
  datatype Request = OrdersOf(userId: string)

  datatype Step = Step(page: Page, request: Option<Request>)

  /** `loadOrders()` up to the request: a missing or empty user id is reported and nothing is requested. */
  function LoadOrders(st: Page): (r: Step)
    ensures (st.userId.None? || st.userId == Some("")) <==> r.request.None?
    ensures r.request.None? ==> r.page == st.(error := Some(UserIdNotFound))
    ensures r.request.Some? ==> r.request.value == OrdersOf(st.userId.value) && r.page == st.(error := None)
  {
    match st.userId
    case Some(id) =>
      if id != "" then Step(st.(error := None), Some(OrdersOf(id)))
      else Step(st.(error := Some(UserIdNotFound)), None)
    case None => Step(st.(error := Some(UserIdNotFound)), None)
  }

  /** `ngOnInit()`: without a user id in the session the page only shows an error. */
  function Init(st: Page, user: Option<AuthService.PageUser>): (r: Step)
    ensures !AuthService.HasUserId(user) <==> r.request.None?
    ensures !AuthService.HasUserId(user) ==> r.page == st.(error := Some(NotAuthenticated))
    ensures AuthService.HasUserId(user) ==>
      r.request == Some(OrdersOf(user.value.id.value)) && r.page.userId == user.value.id && r.page.error.None?
  {
    if !AuthService.HasUserId(user) then Step(st.(error := Some(NotAuthenticated)), None)
    else LoadOrders(st.(userId := user.value.id))
  }

  /** Opening the page with the session as `getUserInfo()` returns it never requests any order. */
  lemma AsWrittenInitNeverLoads(store: AuthService.TokenStore, decode: AuthService.Decoder)
    ensures var r := Init(Initial, AuthService.AsWrittenPageUser(AuthService.GetUserInfo(store, decode)));
      r.request.None? && r.page.error == Some(NotAuthenticated)
  {
    AuthService.AsWrittenSessionHasNoUserId(store, decode);
  }

  /** With the intended identity, the page requests the orders of the token's subject whenever there is one. */
  lemma IntendedInitLoadsSubject(store: AuthService.TokenStore, decode: AuthService.Decoder)
    requires AuthService.DecodeToken(store, decode).Some? && AuthService.DecodeToken(store, decode).value.sub != ""
    ensures Init(Initial, AuthService.CurrentIdentity(store, decode)).request
      == Some(OrdersOf(AuthService.DecodeToken(store, decode).value.sub))
  {
    AuthService.IdentityHasUserIdIffSubject(store, decode);
  }

  /** The orders arrived: sorted newest first, then paged from the current page. */
  function Loaded(st: Page, orders: seq<Order>): (r: Page)
    ensures multiset(r.listing.filtered) == multiset(orders)
    ensures Sorting.SortedDesc(r.listing.filtered, CreatedAt)
    ensures Paging.Coherent(r.listing, ItemsPerPage) && r.listing.currentPage == st.listing.currentPage
    ensures r == st.(listing := r.listing)
  {
    Sorting.SortDescSorted(orders, CreatedAt);
    st.(listing := Paging.Publish(Sorting.SortDesc(orders, CreatedAt), st.listing.currentPage, ItemsPerPage))
  }

  /** The orders request failed. */
  function LoadError(st: Page): (r: Page)
    ensures r == st.(error := Some(LoadFailed))
  {
    st.(error := Some(LoadFailed))
  }

  /** `goToPage(page)`. */
  function GoToPage(st: Page, page: int): (r: Page)
    ensures Paging.Coherent(st.listing, ItemsPerPage) ==> Paging.Coherent(r.listing, ItemsPerPage)
    ensures 1 <= page <= st.listing.totalPages ==> r.listing.currentPage == page
    ensures !(1 <= page <= st.listing.totalPages) ==> r == st
    ensures r == st.(listing := r.listing) && r.listing.filtered == st.listing.filtered
  {
    st.(listing := Paging.GoTo(st.listing, page, ItemsPerPage))
  }

  /** `getVisiblePages()`. */
  method VisiblePages(st: Page) returns (pages: seq<int>)
    ensures pages == Paging.IntendedWindow(st.listing.totalPages, st.listing.currentPage)
  {
    pages := Paging.VisiblePages(st.listing.totalPages, st.listing.currentPage);
  }

  function ItemQuantity(item: OrderItem): int {
    item.quantity
  }

  /** `getOrderItemsCount(order)`: the quantities of its lines, added up. */
  function ItemsCount(order: Order): (r: int)
    ensures |order.items| == 0 ==> r == 0
    ensures (forall i :: 0 <= i < |order.items| ==> order.items[i].quantity >= 0) ==> r >= 0
  {
    SumNonNegativeWhen(order.items, ItemQuantity);
    Sum(order.items, ItemQuantity)
  }

  /** The count is additive over the lines, and never negative when no line has a negative quantity. */
  lemma ItemsCountSplits(order: Order, k: nat)
    requires k <= |order.items|
    ensures ItemsCount(order) == Sum(order.items[..k], ItemQuantity) + Sum(order.items[k..], ItemQuantity)
    ensures (forall i :: 0 <= i < |order.items| ==> order.items[i].quantity >= 0) ==> ItemsCount(order) >= 0
  {
    assert order.items == order.items[..k] + order.items[k..];
    SumAppend(order.items[..k], order.items[k..], ItemQuantity);
    if forall i :: 0 <= i < |order.items| ==> order.items[i].quantity >= 0 {
      SumNonNegative(order.items, ItemQuantity);
    }
  }

  /** A single-line order counts that line's quantity. */
  lemma SingleLineCount(order: Order)
    requires |order.items| == 1
    ensures ItemsCount(order) == order.items[0].quantity
  {
    assert order.items[..|order.items| - 1] == [];
    assert Sum(order.items, ItemQuantity) == Sum([], ItemQuantity) + ItemQuantity(order.items[0]);
  }

  function OrderAmount(o: Order): int {
    o.totalAmount
  }

  /** `getTotalSpent()`, in cents. */
  function TotalSpent(orders: seq<Order>): (r: int)
    ensures |orders| == 0 ==> r == 0
    ensures (forall i :: 0 <= i < |orders| ==> orders[i].totalAmount >= 0) ==> r >= 0
  {
    SumNonNegativeWhen(orders, OrderAmount);
    Sum(orders, OrderAmount)
  }

  /** Sorting the orders does not change what was spent. */
  lemma SortingKeepsTotalSpent(orders: seq<Order>)
    ensures TotalSpent(Sorting.SortDesc(orders, CreatedAt)) == TotalSpent(orders)
  {
    Sorting.SortDescSorted(orders, CreatedAt);
    SumPermutation(Sorting.SortDesc(orders, CreatedAt), orders, OrderAmount);
  }
}
