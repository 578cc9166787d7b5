# evilcorp-bakery-frontend, modelled in Dafny

A model of the logic inside the Angular storefront of the EvilCorp bakery:

- the cart store (`CartService`): id-keyed lines with a stock ceiling, and the derived item count and total;
- the session checks of `AuthService`: the token's claims segment, strict expiry, the user info projection and the login answer;
- the HTTP interceptor: the bearer header, the 401 handling with its single session-expired modal, and `hideSessionExpiredModal`;
- the list pages of the dashboards:
  - filtering, the page count, the page slice, `goToPage` and the three-wide page window, written once in `Paging` and used with 6, 6 and 4 items per page;
  - the category list, the stock and role counters and badges;
  - the local list updates after create, update and delete;
- the order history and the user overview:
  - the sort by date, the item count and the statistics;
  - the activity feed, the relative time and the popular products;
  - the authentication guard;
- the dashboard side panel: the role's dashboard, the tab permissions and logout;
- the product page: the id guard, the main photo, the quantity stepper and its repeated add to the cart, and the stock status;
- the catalogue's search box: the suggestion list's keyboard index and the search;
- the order summary: the payment method tables, the payment guard and its outcome;
- the registration form: its checks and the password strength meter.

Each source file has one module. `Wrappers`, `Text`, `Seqs`, `Sorting`, `Domain`, `Paging` and `Images` hold what several pages share.

Modelling choices:

- Money is an integer number of cents.
- Instants are integer milliseconds. The hour of the day is a parameter.
- The overview's average is an exact `real`.
- Lowercasing is ASCII lowercasing. `trim()` removes the ECMAScript white-space and line-terminator characters.
- Base64 and JSON decoding of the token is the parameter `decode: string -> Option<JwtClaims>`. A failure is `None`.
- Storage, the router and alerts are fields or results of the functions that touch them; the navigation-only helpers are listed under "Left out".
- A server answer is a parameter of the callback that handles it.

Where the code departs from the storefront's intended design, the model follows the code:

- `addToCart` compares an existing line against the incoming `product.stock`, not the stock recorded on the line.
- Restoring a saved cart has no error handling: `JSON.parse` of a corrupt entry throws. Restoring is left out; the model does not claim that a corrupt cart comes back empty.
- The interceptor reacts to every 401, whatever its reason phrase.
- There is no 403 modal and no re-validation of stock at checkout in the code.
- The popular-products comment says three products; the code takes four.

## Model

| member | source | states |
|---|---|---|
| CartService.UpdateCart | src/app/core/services/cart.service.ts:77-82 | the published lines are the given ones; the count is the sum of the quantities and the total the sum of price × quantity |
| CartService.FindIndex | src/app/core/services/cart.service.ts:33 | `find` by id: None exactly when no line has the id, else the first index holding it |
| CartService.AddToCart | src/app/core/services/cart.service.ts:31-52 | after an add the product is in the cart and the count and total match the lines |
| CartService.AddExisting | src/app/core/services/cart.service.ts:33-38 | for an id already present, only that line changes, by +1 exactly when its quantity is below the incoming product's stock |
| CartService.AddAtCeilingIsNoOp | src/app/core/services/cart.service.ts:35-37 | at or above the incoming stock, the add leaves the cart as it was |
| CartService.AddNew | src/app/core/services/cart.service.ts:39-49 | a new id appends one line at the end with quantity 1 and the product's id, name, price, image and stock; the earlier lines are kept |
| CartService.NewLineIgnoresStock | src/app/core/services/cart.service.ts:40-47 | a product with stock 0 still gets a line of quantity 1, above its own ceiling |
| CartService.AddKeepsIdsUnique | src/app/core/services/cart.service.ts:33-49 | adding never creates a second line for an id |
| CartService.AddCount | src/app/core/services/cart.service.ts:35-79 | the count grows by one exactly when the add changed the lines |
| CartService.RemoveFromCart | src/app/core/services/cart.service.ts:54-57 | after removal no line has the id, and count and total match the lines |
| CartService.RemoveKeepsOthers | src/app/core/services/cart.service.ts:55 | removal keeps exactly the lines with other ids: every copy of each such line stays, none with the id does, and the order is kept |
| CartService.RemoveAbsent | src/app/core/services/cart.service.ts:54-57 | removing an absent id leaves the lines, and a consistent cart, unchanged |
| CartService.AddThenRemove | src/app/core/services/cart.service.ts:39-57 | removing a product just added as a new line restores the previous lines |
| CartService.UpdateQuantity | src/app/core/services/cart.service.ts:59-71 | `updateQuantity` keeps count and total consistent with the lines |
| CartService.UpdateToZeroRemoves | src/app/core/services/cart.service.ts:64-65 | a quantity ≤ 0 for a present id is exactly `removeFromCart` |
| CartService.UpdateWithinStock | src/app/core/services/cart.service.ts:66-68 | a quantity in 1..recorded stock is set on that line and no other |
| CartService.UpdateAboveStockIsNoOp | src/app/core/services/cart.service.ts:66 | a quantity above the line's recorded stock changes nothing |
| CartService.UpdateUnknownIsNoOp | src/app/core/services/cart.service.ts:61-63 | an id that is not in the cart changes nothing |
| CartService.UpdateKeepsIdsUnique | src/app/core/services/cart.service.ts:59-71 | `updateQuantity` keeps at most one line per id |
| CartService.ClearCart | src/app/core/services/cart.service.ts:73-75 | no lines, count 0, total 0 |
| AuthService.Split | src/app/core/services/auth/auth.service.ts:21 | `split('.')` gives at least one piece and no piece holds a separator |
| AuthService.SplitWithoutSeparator | src/app/core/services/auth/auth.service.ts:21 | a string without `.` splits into itself |
| AuthService.SplitAtFirstSeparator | src/app/core/services/auth/auth.service.ts:21 | the text before the first `.` is the first piece and the rest splits on its own |
| AuthService.ClaimsSegment | src/app/core/services/auth/auth.service.ts:21-23 | a second piece exists only when the token holds a `.`, and it holds none |
| AuthService.DecodeToken | src/app/core/services/auth/auth.service.ts:14-29 | no token, an empty token or a token without `.` gives null; a result always comes from decoding the second piece |
| AuthService.DecodeThreePartToken | src/app/core/services/auth/auth.service.ts:20-24 | `header.payload.signature` decodes to what the payload decodes to |
| AuthService.DecodeDependsOnlyOnSegment | src/app/core/services/auth/auth.service.ts:20-24 | tokens with the same second piece decode identically |
| AuthService.IsLoggedIn | src/app/core/services/auth/auth.service.ts:31-35 | logged in only when the token decodes |
| AuthService.LoggedInIffBeforeExpiry | src/app/core/services/auth/auth.service.ts:31-39 | logged in iff the token decodes and `exp > floor(now / 1000)`, that is `now < exp * 1000` |
| AuthService.GetUserInfo | src/app/core/services/auth/auth.service.ts:41-51 | null iff the token does not decode; otherwise exactly the given name and the role claim |
| AuthService.Logout | src/app/core/services/auth/auth.service.ts:53-55 | the token is removed |
| AuthService.LogoutEndsSession | src/app/core/services/auth/auth.service.ts:15-55 | after logout nobody is logged in and there is no user info |
| AuthService.Login | src/app/core/services/auth/auth.service.ts:64-81 | true iff the reply succeeded and `data[0]` exists and is not blank; then `data[0]` is stored untrimmed; otherwise false with storage untouched, also on a transport error |
| AuthService.LoginThenDecode | src/app/core/services/auth/auth.service.ts:20-73 | after a successful login the session decodes the payload of the stored token |
| AuthService.AsWrittenPageUser | src/app/core/services/auth/auth.service.ts:41-51 | what the pages read from `getUserInfo()`: present iff the info is, and never an `id` or `surname` |
| AuthService.AsWrittenSessionHasNoUserId | src/app/core/services/auth/auth.service.ts:41-51 | no session gives the pages a user id |
| AuthService.CurrentIdentity | src/app/domain/jwtToken.ts:1-11 | the intended identity: present iff the token decodes, with the subject as id, the given and family names, and the role |
| AuthService.IdentityHasUserIdIffSubject | src/app/presentation/pages/dashboards/bookmarks/orders-page/orders-page.ts:38 | with the intended identity a page finds a user id iff the token decodes with a non-empty subject |
| AuthService.IdentityAgreesWithUserInfo | src/app/core/services/auth/auth.service.ts:47-50 | the intended identity and `getUserInfo()` agree on presence, name and role |
| AuthInterceptor.Start | src/app/core/services/auth/auth.interceptor.ts:10 | the process starts with no modal reference and nothing attached |
| AuthInterceptor.AttachBearer | src/app/core/services/auth/auth.interceptor.ts:16-24 | with a non-empty token the request carries `Authorization: Bearer <token>`; without one it is unchanged; other headers and the URL are kept |
| AuthInterceptor.OnError | src/app/core/services/auth/auth.interceptor.ts:27-40 | a non-401 changes nothing; a 401 removes the token and creates and attaches a modal only when none is held |
| AuthInterceptor.Intercept | src/app/core/services/auth/auth.interceptor.ts:16-43 | the request is sent with the header rule applied; the reply or error reaches the caller unchanged; only an error touches the state |
| AuthInterceptor.HideModal | src/app/core/services/auth/auth.interceptor.ts:46-52 | the held modal is detached and forgotten; the token is kept; without a modal nothing changes |
| AuthInterceptor.HideIdempotent | src/app/core/services/auth/auth.interceptor.ts:46-52 | hiding twice is hiding once |
| AuthInterceptor.ConsecutiveUnauthorizedShowOneModal | src/app/core/services/auth/auth.interceptor.ts:31-39 | two 401s in a row leave exactly one modal attached |
| AuthInterceptor.HideThenUnauthorizedShowsFreshModal | src/app/core/services/auth/auth.interceptor.ts:31-52 | after hiding, the next 401 attaches a new modal |
| AuthInterceptor.AtMostOneModal | src/app/core/services/auth/auth.interceptor.ts:10-52 | over any sequence of calls, errors and hides at most one modal is attached |
| Paging.TotalPages | src/app/presentation/pages/dashboards/bookmarks/product-management-page/product-management-page.ts:116 | `ceil(n / k)`: the smallest page count whose pages hold `n` items |
| Paging.SliceBound | src/app/presentation/pages/dashboards/bookmarks/product-management-page/product-management-page.ts:123 | a `slice` bound resolved against the length stays within it |
| Paging.SliceWindow | src/app/presentation/pages/dashboards/bookmarks/product-management-page/product-management-page.ts:121-123 | `slice(s, s + k)` with `s ≥ 0` holds the items from `s` on, at most `k` of them |
| Paging.PageSlice | src/app/presentation/pages/dashboards/bookmarks/product-management-page/product-management-page.ts:120-124 | the page holds at most `k` items, item `j` being filtered item `(p - 1) * k + j`; it is full unless it reaches the end, and empty past it |
| Paging.ItemOnItsPage | src/app/presentation/pages/dashboards/bookmarks/product-management-page/product-management-page.ts:116-124 | item `i` is shown on page `i / k + 1` at position `i % k`, and that page exists |
| Paging.PastLastPageIsEmpty | src/app/presentation/pages/dashboards/bookmarks/product-management-page/product-management-page.ts:116-124 | a page past the page count is empty |
| Paging.GoToPage | src/app/presentation/pages/dashboards/bookmarks/product-management-page/product-management-page.ts:126-132 | the page moves only to a value in 1..totalPages |
| Paging.Range | src/app/presentation/pages/dashboards/bookmarks/product-management-page/product-management-page.ts:139 | `lo..hi` as consecutive numbers |
| Paging.VisiblePages | src/app/presentation/pages/dashboards/bookmarks/product-management-page/product-management-page.ts:134-154 | the loop yields the clamped window: `1..totalPages` for at most 3 pages, else 3 consecutive pages within range holding the current page when it is valid |
| Paging.Publish | src/app/presentation/pages/dashboards/bookmarks/product-management-page/product-management-page.ts:115-117 | storing the filtered items leaves the page count and slice coherent with them |
| Paging.GoTo | src/app/presentation/pages/dashboards/bookmarks/product-management-page/product-management-page.ts:126-132 | an accepted page is shown with its slice; any other leaves the listing as it was |
| Paging.AcceptedPageIsNonEmpty | src/app/presentation/pages/dashboards/bookmarks/product-management-page/product-management-page.ts:116-132 | an accepted page is never empty, and is full unless it is the last |
| Sorting.Insert | src/app/presentation/pages/dashboards/bookmarks/orders-page/orders-page.ts:58-60 | one insertion step adds exactly the new element |
| Sorting.InsertKeepsSorted | src/app/presentation/pages/dashboards/bookmarks/orders-page/orders-page.ts:58-60 | inserting into a list sorted newest first keeps it sorted |
| Sorting.SortDesc | src/app/presentation/pages/dashboards/bookmarks/orders-page/orders-page.ts:58-60 | the sort is a permutation of its input |
| Sorting.SortDescSorted | src/app/presentation/pages/dashboards/bookmarks/orders-page/orders-page.ts:58-60 | the sort's output is ordered by non-increasing date, with the same elements and length |
| Sorting.SortDescStable | src/app/presentation/pages/dashboards/bookmarks/orders-page/orders-page.ts:58-60 | the sort is stable: the elements with any one key come out in their input order, as `Array.prototype.sort` guarantees |
| Images.GetImageSrc | src/app/presentation/pages/dashboards/bookmarks/orders-page/orders-page.ts:135-145 | empty gives the placeholder, `data:image…` is kept, anything else gets the jpeg prefix; a non-empty input always yields a `data:image` source |
| Images.ImageSrcIdempotent | src/app/presentation/pages/dashboards/bookmarks/overview-page/overview-page.ts:179-189 | on non-empty input, applying it twice is applying it once |
| Images.ImageSrcNotIdempotentOnEmpty | src/app/presentation/pages/dashboards/bookmarks/overview-page/overview-page.ts:179-189 | on empty input it is not idempotent: the placeholder path gets the jpeg prefix |
| ProductManagementPage.InsertCategory | src/app/presentation/pages/dashboards/bookmarks/product-management-page/product-management-page.ts:81 | `Set.add`: the list afterwards holds the old categories and the new one |
| ProductManagementPage.InsertCategoryAscending | src/app/presentation/pages/dashboards/bookmarks/product-management-page/product-management-page.ts:84 | adding keeps the list strictly ascending |
| ProductManagementPage.ExtractCategories | src/app/presentation/pages/dashboards/bookmarks/product-management-page/product-management-page.ts:77-85 | the categories are exactly the non-empty categories of the products |
| ProductManagementPage.CategoriesSortedAndDistinct | src/app/presentation/pages/dashboards/bookmarks/product-management-page/product-management-page.ts:77-85 | they are strictly ascending, hence distinct, and none is empty |
| ProductManagementPage.ByCategory | src/app/presentation/pages/dashboards/bookmarks/product-management-page/product-management-page.ts:101-105 | `'all'` keeps everything; otherwise the result is `filter` by a case-insensitive category match: exactly the matching products, every copy, in order |
| ProductManagementPage.BySearch | src/app/presentation/pages/dashboards/bookmarks/product-management-page/product-management-page.ts:107-113 | a blank query keeps everything; otherwise the result is `filter` by the lowered name or description containing the lowered, untrimmed query: every copy of a match, in order |
| ProductManagementPage.ApplyFilters | src/app/presentation/pages/dashboards/bookmarks/product-management-page/product-management-page.ts:98-115 | the two stages equal one `filter` by both conditions: each product appears as often as in the input when it passes both and never otherwise, in input order |
| ProductManagementPage.NoFilterListsAll | src/app/presentation/pages/dashboards/bookmarks/product-management-page/product-management-page.ts:98-115 | with `'all'` and a blank query every product is listed, in order |
| ProductManagementPage.Refresh | src/app/presentation/pages/dashboards/bookmarks/product-management-page/product-management-page.ts:98-124 | after `applyFilters` the listing shows the filtered products on the current page, with the page count that goes with them; no other field changes |
| ProductManagementPage.Loaded | src/app/presentation/pages/dashboards/bookmarks/product-management-page/product-management-page.ts:63-67 | loaded products are stored, the categories become `extractCategories` of them (exactly their non-empty categories) and the listing is refreshed on the same page; filter and query are kept |
| ProductManagementPage.FilterProducts | src/app/presentation/pages/dashboards/bookmarks/product-management-page/product-management-page.ts:87-91 | selecting a category goes back to page 1 and refreshes the listing; products, categories and query are kept |
| ProductManagementPage.SearchChanged | src/app/presentation/pages/dashboards/bookmarks/product-management-page/product-management-page.ts:93-96 | a changed query goes back to page 1 and refreshes the listing; products, categories and filter are kept |
| ProductManagementPage.GoToPage | src/app/presentation/pages/dashboards/bookmarks/product-management-page/product-management-page.ts:126-132 | only a page in 1..totalPages is accepted; the listing stays coherent, and products, categories, filter, query and the filtered list are kept |
| ProductManagementPage.VisiblePages | src/app/presentation/pages/dashboards/bookmarks/product-management-page/product-management-page.ts:134-154 | the page's window is the clamped three-wide window |
| ProductManagementPage.LowStockCount | src/app/presentation/pages/dashboards/bookmarks/product-management-page/product-management-page.ts:160-162 | at most the number of products, and positive exactly when some product has stock strictly between 0 and 10 |
| ProductManagementPage.OutOfStockCount | src/app/presentation/pages/dashboards/bookmarks/product-management-page/product-management-page.ts:164-166 | at most the number of products, and positive exactly when some product has stock 0 |
| ProductManagementPage.StockCountersDisjoint | src/app/presentation/pages/dashboards/bookmarks/product-management-page/product-management-page.ts:160-166 | low-stock and out-of-stock counts never exceed the product count together |
| ProductManagementPage.StockBadgeClass | src/app/presentation/pages/dashboards/bookmarks/product-management-page/product-management-page.ts:310-314 | `stock-out` iff 0, `stock-low` iff non-zero below 10, `stock-good` iff 10 or more |
| ProductManagementPage.BadgeAgreesWithCounters | src/app/presentation/pages/dashboards/bookmarks/product-management-page/product-management-page.ts:160-314 | the badge agrees with the counters for non-negative stock; negative stock gets `stock-low` without being counted |
| ProductManagementPage.CreateProduct | src/app/presentation/pages/dashboards/bookmarks/product-management-page/product-management-page.ts:199-219 | an empty name or category alerts without a request; a created product goes first, the categories are rebuilt by `extractCategories` and the listing refreshed on the same page with filter and query kept; a null product or an error leaves the page as it was |
| ProductManagementPage.IndexOfId | src/app/presentation/pages/dashboards/bookmarks/product-management-page/product-management-page.ts:260 | `findIndex` by id: the first index with the id, or none |
| ProductManagementPage.Updated | src/app/presentation/pages/dashboards/bookmarks/product-management-page/product-management-page.ts:257-267 | the returned product replaces the first product with its id, and nothing else; the categories are rebuilt by `extractCategories` and the listing refreshed on the same page with filter and query kept |
| ProductManagementPage.ConfirmDelete | src/app/presentation/pages/dashboards/bookmarks/product-management-page/product-management-page.ts:287-297 | after a successful delete the list is `filter` by a different id: each product with another id keeps all its copies, in order, and none with the id remains; the categories are rebuilt, and filter, query and page are kept; otherwise nothing changes |
| CustomersPage.Arrange | src/app/presentation/pages/dashboards/bookmarks/customers-page/customers-page.ts:44-46 | the loaded users are a permutation of the response, newest account first |
| CustomersPage.ByRole | src/app/presentation/pages/dashboards/bookmarks/customers-page/customers-page.ts:71-77 | `'all'` keeps everyone; otherwise the result is `filter` by a case-insensitive role match: exactly the matching users, every copy, in order |
| CustomersPage.BySearch | src/app/presentation/pages/dashboards/bookmarks/customers-page/customers-page.ts:80-87 | a blank query keeps everyone; otherwise the result is `filter` by the lowered name, surname or e-mail containing the lowered query: every copy of a match, in order |
| CustomersPage.ApplyFilters | src/app/presentation/pages/dashboards/bookmarks/customers-page/customers-page.ts:69-92 | the two stages equal one `filter` by both conditions: each user appears as often as in the input when they pass both and never otherwise, in input order |
| CustomersPage.Refresh | src/app/presentation/pages/dashboards/bookmarks/customers-page/customers-page.ts:69-98 | the listing shows the filtered users on the current page, coherently paged; no other field changes |
| CustomersPage.Loaded | src/app/presentation/pages/dashboards/bookmarks/customers-page/customers-page.ts:43-47 | the stored users are the response sorted newest first, and the listing is refreshed on the same page; filter and query are kept |
| CustomersPage.FilterUsers | src/app/presentation/pages/dashboards/bookmarks/customers-page/customers-page.ts:58-62 | selecting a role goes back to page 1 and refreshes; users and query are kept |
| CustomersPage.SearchChanged | src/app/presentation/pages/dashboards/bookmarks/customers-page/customers-page.ts:64-67 | a changed query goes back to page 1 and refreshes; users and filter are kept |
| CustomersPage.GoToPage | src/app/presentation/pages/dashboards/bookmarks/customers-page/customers-page.ts:100-106 | only a page in 1..totalPages is accepted; users, filter, query and the filtered list are kept |
| CustomersPage.VisiblePages | src/app/presentation/pages/dashboards/bookmarks/customers-page/customers-page.ts:108-128 | the clamped three-wide window |
| CustomersPage.AdminCount | src/app/presentation/pages/dashboards/bookmarks/customers-page/customers-page.ts:134-138 | at most the number of users, and positive exactly when some lowered role is `admin` |
| CustomersPage.UserCount | src/app/presentation/pages/dashboards/bookmarks/customers-page/customers-page.ts:140-144 | at most the number of users, and positive exactly when some lowered role is `user` |
| CustomersPage.RoleCountersDisjoint | src/app/presentation/pages/dashboards/bookmarks/customers-page/customers-page.ts:134-144 | admin and user counts never exceed the user count together |
| CustomersPage.RoleBadgeClass | src/app/presentation/pages/dashboards/bookmarks/customers-page/customers-page.ts:184-186 | `role-admin` iff the lowered role is `admin`, else `role-user` |
| CustomersPage.BadgeAgreesWithAdminCount | src/app/presentation/pages/dashboards/bookmarks/customers-page/customers-page.ts:134-186 | a user has the admin badge iff counted as an admin |
| CustomersPage.ConfirmDelete | src/app/presentation/pages/dashboards/bookmarks/customers-page/customers-page.ts:157-167 | after a successful delete the list is `filter` by a different id: each user with another id keeps all copies, in order, and none with the id remains; filter, query and page are kept; otherwise nothing changes |
| OrdersPage.Init | src/app/presentation/pages/dashboards/bookmarks/orders-page/orders-page.ts:35-45 | without a user id only the error is set; otherwise that user's orders are requested |
| OrdersPage.LoadOrders | src/app/presentation/pages/dashboards/bookmarks/orders-page/orders-page.ts:47-56 | a missing or empty id sets `User ID not found` and requests nothing; otherwise the error is cleared and the orders requested |
| OrdersPage.AsWrittenInitNeverLoads | src/app/presentation/pages/dashboards/bookmarks/orders-page/orders-page.ts:36-41 | with `getUserInfo()` as written the page always reports `User not authenticated` and never loads |
| OrdersPage.IntendedInitLoadsSubject | src/app/presentation/pages/dashboards/bookmarks/orders-page/orders-page.ts:36-44 | with the intended identity the page requests the orders of the token's subject |
| OrdersPage.Loaded | src/app/presentation/pages/dashboards/bookmarks/orders-page/orders-page.ts:57-62 | the orders shown are a permutation of the response, newest first, paged by 4 from the current page; the error and the user id are kept |
| OrdersPage.LoadError | src/app/presentation/pages/dashboards/bookmarks/orders-page/orders-page.ts:65-66 | a failed load sets the error and keeps the rest |
| OrdersPage.GoToPage | src/app/presentation/pages/dashboards/bookmarks/orders-page/orders-page.ts:79-85 | only a page in 1..totalPages is accepted; the sorted orders, the error and the user id are kept |
| OrdersPage.VisiblePages | src/app/presentation/pages/dashboards/bookmarks/orders-page/orders-page.ts:87-107 | the clamped three-wide window |
| OrdersPage.ItemsCount | src/app/presentation/pages/dashboards/bookmarks/orders-page/orders-page.ts:127-129 | an order without lines counts 0, and one without negative quantities never counts below 0 |
| OrdersPage.ItemsCountSplits | src/app/presentation/pages/dashboards/bookmarks/orders-page/orders-page.ts:127-129 | the item count adds up over any split of the lines, and is never negative without negative quantities |
| OrdersPage.SingleLineCount | src/app/presentation/pages/dashboards/bookmarks/orders-page/orders-page.ts:127-129 | a single line counts its quantity |
| OrdersPage.TotalSpent | src/app/presentation/pages/dashboards/bookmarks/orders-page/orders-page.ts:131-133 | no orders spend 0, and orders without negative amounts never spend below 0 |
| OrdersPage.SortingKeepsTotalSpent | src/app/presentation/pages/dashboards/bookmarks/orders-page/orders-page.ts:131-133 | the amount spent is the same before and after the sort |
| OverviewPage.Init | src/app/presentation/pages/dashboards/bookmarks/overview-page/overview-page.ts:52-63 | without a user id only the error is set; otherwise the orders, products and join date are requested, in that order |
| OverviewPage.AsWrittenInitNeverLoads | src/app/presentation/pages/dashboards/bookmarks/overview-page/overview-page.ts:53-57 | with `getUserInfo()` as written the dashboard never loads |
| OverviewPage.CalculateStats | src/app/presentation/pages/dashboards/bookmarks/overview-page/overview-page.ts:109-125 | totals, active and completed counts by filter, the amount spent, and an average that is 0 without orders and otherwise times the count gives the amount |
| OverviewPage.AverageOrZero | src/app/presentation/pages/dashboards/bookmarks/overview-page/overview-page.ts:122-124 | 0 without orders, otherwise the value that multiplied by the count gives the total |
| OverviewPage.Average | src/app/presentation/pages/dashboards/bookmarks/overview-page/overview-page.ts:122-124 | the average times the count is the total |
| OverviewPage.ActiveAndCompletedDisjoint | src/app/presentation/pages/dashboards/bookmarks/overview-page/overview-page.ts:112-118 | active and completed counts never exceed the order count together |
| OverviewPage.StatusCaseInsensitive | src/app/presentation/pages/dashboards/bookmarks/overview-page/overview-page.ts:113-117 | a status counts the same however it is capitalised |
| OverviewPage.DashboardAnswered | src/app/presentation/pages/dashboards/bookmarks/overview-page/overview-page.ts:71-86 | the orders are a newest-first permutation of the response; all five statistics are those of `calculateStats` on them, with the count and amount equal to the response's; the feed is built from the sorted list; a failure only sets `Failed to load dashboard data` |
| OverviewPage.GetRelativeTime | src/app/presentation/pages/dashboards/bookmarks/overview-page/overview-page.ts:144-155 | the bucket follows the floored hours: under 1 just now, under 24 hours, under 7 days, else the date, with the number of whole hours or days |
| OverviewPage.RenderRelativeTime | src/app/presentation/pages/dashboards/bookmarks/overview-page/overview-page.ts:151-153 | the text of the first three buckets |
| OverviewPage.RenderedCountReadsBack | src/app/presentation/pages/dashboards/bookmarks/overview-page/overview-page.ts:152-153 | the rendered text starts with the decimal digits of the count, then a space |
| OverviewPage.PluralOnlyAboveOne | src/app/presentation/pages/dashboards/bookmarks/overview-page/overview-page.ts:152-153 | the unit takes an `s` iff the count is above 1 |
| OverviewPage.Reference | src/app/presentation/pages/dashboards/bookmarks/overview-page/overview-page.ts:134 | `substring(0, 8)`: a prefix of the guid of at most 8 characters |
| OverviewPage.ToActivity | src/app/presentation/pages/dashboards/bookmarks/overview-page/overview-page.ts:130-137 | completed orders get the green check, all others the orange bag; the title and time come from the order |
| OverviewPage.ActivityFeed | src/app/presentation/pages/dashboards/bookmarks/overview-page/overview-page.ts:127-142 | at most three entries, entry `i` made from order `i` |
| OverviewPage.FeedShowsNewest | src/app/presentation/pages/dashboards/bookmarks/overview-page/overview-page.ts:73-128 | after the sort, no order left out of the feed is newer than one in it |
| OverviewPage.PopularProducts | src/app/presentation/pages/dashboards/bookmarks/overview-page/overview-page.ts:95-97 | at most four products, all in stock, an order-preserving subsequence |
| OverviewPage.PopularProductsAreTheFirst | src/app/presentation/pages/dashboards/bookmarks/overview-page/overview-page.ts:95-97 | they are the first four in-stock products, or all of them when fewer |
| OverviewPage.PopularAnswered | src/app/presentation/pages/dashboards/bookmarks/overview-page/overview-page.ts:89-105 | a failed products request leaves no popular products; an answer gives at most four in-stock products in catalogue order |
| OverviewPage.Greeting | src/app/presentation/pages/dashboards/bookmarks/overview-page/overview-page.ts:157-162 | morning iff before 12, afternoon iff 12 to 17, evening iff 18 or later |
| OverviewPage.MemberSince | src/app/presentation/pages/dashboards/bookmarks/overview-page/overview-page.ts:164-176 | the join date, or now when the request fails |
| UserPanel.DashboardPrefix | src/app/shared/user-panel/user-panel.ts:28-30 | `admin-dashboard` iff the lowered role contains `admin`, else `user-dashboard` |
| UserPanel.Init | src/app/shared/user-panel/user-panel.ts:23-31 | the role is the session's role or `''`, and the prefix follows from it |
| UserPanel.Permissions | src/app/shared/user-panel/user-panel.ts:35-41 | the lowered role picks the admin tabs, the user tabs or none |
| UserPanel.HasAccess | src/app/shared/user-panel/user-panel.ts:34-42 | a tab opens only for the lowered roles `admin` and `user` and only if it is an admin tab; for admins exactly the admin tabs open |
| UserPanel.AccessTable | src/app/shared/user-panel/user-panel.ts:34-42 | six tabs for admins, three for users, none for other roles, whatever the role's case |
| UserPanel.UserTabsAreAdminTabs | src/app/shared/user-panel/user-panel.ts:36-37 | every user tab is an admin tab, and customers is admin-only |
| UserPanel.NoSessionNoAccess | src/app/shared/user-panel/user-panel.ts:24-41 | without user info no tab opens and the user dashboard is chosen |
| UserPanel.SetActiveTab | src/app/shared/user-panel/user-panel.ts:44-50 | the tab changes only when access is granted |
| UserPanel.ActiveTabStaysPermitted | src/app/shared/user-panel/user-panel.ts:44-50 | over any sequence of requests the active tab is `overview` or a permitted tab |
| UserPanel.Logout | src/app/shared/user-panel/user-panel.ts:52-57 | the token is removed, the user info dropped, `isLoggedIn` false and the router sent to `/`; the role is left as it was |
| UserPanel.LogoutEndsSession | src/app/shared/user-panel/user-panel.ts:52-57 | after logout the service reports no login and no user info, the panel agrees and the route is `/` |
| SingleProductPage.Init | src/app/presentation/pages/single-product-page/single-product-page.ts:31-40 | a NaN or zero id gives `Invalid product ID` and no load; any other id is loaded |
| SingleProductPage.FindMain | src/app/presentation/pages/single-product-page/single-product-page.ts:72 | the first photo marked as main, or none |
| SingleProductPage.SetMainImage | src/app/presentation/pages/single-product-page/single-product-page.ts:68-89 | no photos gives the fallback image and no id; otherwise the first main photo, else the first photo |
| SingleProductPage.MainPhotoIgnoresLaterPhotos | src/app/presentation/pages/single-product-page/single-product-page.ts:72-80 | once a main photo exists, photos after it do not change the choice |
| SingleProductPage.Increase | src/app/presentation/pages/single-product-page/single-product-page.ts:96-100 | +1 only below the product's stock |
| SingleProductPage.Decrease | src/app/presentation/pages/single-product-page/single-product-page.ts:102-106 | −1 only above 1 |
| SingleProductPage.StepperStaysInRange | src/app/presentation/pages/single-product-page/single-product-page.ts:96-106 | from a quantity in 1..stock any presses stay in 1..stock |
| SingleProductPage.StepperFromOne | src/app/presentation/pages/single-product-page/single-product-page.ts:96-106 | starting at 1 with some stock the quantity stays in 1..stock |
| SingleProductPage.Raised | src/app/core/services/cart.service.ts:35-38 | a quantity raised by `n` steps that stop at the stock: `min(q + n, stock)` below it, unchanged at or above it |
| SingleProductPage.RaisedStep | src/app/core/services/cart.service.ts:36-37 | one more step raises by one only below the stock |
| SingleProductPage.AddOneMore | src/app/presentation/pages/single-product-page/single-product-page.ts:110-112 | one more add on top of `n` adds gives the lines of `n + 1` adds |
| SingleProductPage.AddToCart | src/app/presentation/pages/single-product-page/single-product-page.ts:108-115 | no product, no stock or no quantity leaves the cart; otherwise the cart holds the lines of `quantity` adds, consistently totalled |
| SingleProductPage.AddedToEmptyLine | src/app/presentation/pages/single-product-page/single-product-page.ts:108-115 | a new product ends at `min(quantity, stock)` on one appended line |
| SingleProductPage.AddedToExistingLine | src/app/presentation/pages/single-product-page/single-product-page.ts:108-115 | a line at or below the stock ends at `min(prior + quantity, stock)` |
| SingleProductPage.StockStatus | src/app/presentation/pages/single-product-page/single-product-page.ts:125-130 | `Out of Stock` at 0, `Only N left` below 10, else `In Stock`; empty without a product |
| SingleProductPage.StockClass | src/app/presentation/pages/single-product-page/single-product-page.ts:132-137 | `out-of-stock`, `low-stock`, `in-stock` by the same thresholds |
| SingleProductPage.StatusAgreesWithClass | src/app/presentation/pages/single-product-page/single-product-page.ts:125-137 | the status text and the class always name the same bucket |
| ProductPage.InitialInv | src/app/presentation/pages/product-page/product-page.ts:17-26 | the initial state keeps the list invariant |
| ProductPage.HideSuggestions | src/app/presentation/pages/product-page/product-page.ts:133-134 | hiding only schedules the timer |
| ProductPage.HideFires | src/app/presentation/pages/product-page/product-page.ts:134-137 | the timer hides the list and clears the selection and the pending flag, and every other field is kept |
| ProductPage.PerformSearch | src/app/presentation/pages/product-page/product-page.ts:149-156 | a blank query restores the catalogue without a request; any other query is sent as is |
| ProductPage.SelectSuggestion | src/app/presentation/pages/product-page/product-page.ts:126-130 | the suggestion's name becomes the query, the hide is scheduled and the search runs |
| ProductPage.KeyDown | src/app/presentation/pages/product-page/product-page.ts:93-123 | keys are ignored while hidden; down is `min(i + 1, len − 1)`, up `max(i − 1, −1)`; Enter selects or searches; Escape hides |
| ProductPage.ArrowsKeepIndexInRange | src/app/presentation/pages/product-page/product-page.ts:97-108 | the arrows keep the index in −1..len−1 and change nothing else |
| ProductPage.DownThenUp | src/app/presentation/pages/product-page/product-page.ts:97-108 | down then up returns to the same state when not on the last entry |
| ProductPage.EnterSearchesSelectedName | src/app/presentation/pages/product-page/product-page.ts:110-130 | Enter on a selection searches for its name |
| ProductPage.QueryEmitted | src/app/presentation/pages/product-page/product-page.ts:39-48 | an empty query clears the list; any other asks for suggestions |
| ProductPage.SuggestionsArrived | src/app/presentation/pages/product-page/product-page.ts:51-56 | the list is shown iff non-empty, nothing is selected, and the invariant holds; the query, the products and the other fields are kept |
| ProductPage.SuggestionsFailed | src/app/presentation/pages/product-page/product-page.ts:57-62 | a failure empties and hides the list; the selection, the query, the products and the other fields are kept |
| ProductPage.ClearSearch | src/app/presentation/pages/product-page/product-page.ts:141-146 | empty query and list, hidden, full catalogue; the selection, loading flags and the pending hide are kept |
| ProductPage.ClearThenSearchRestores | src/app/presentation/pages/product-page/product-page.ts:141-153 | searching right after clearing sends nothing |
| ProductPage.KeyDownKeepsInv | src/app/presentation/pages/product-page/product-page.ts:93-123 | every key keeps the list invariant |
| ProductPage.ApplyKeepsInv | src/app/presentation/pages/product-page/product-page.ts:39-166 | every event keeps the list invariant |
| ProductPage.Run | src/app/presentation/pages/product-page/product-page.ts:39-166 | any run of events ends in a state keeping the invariant |
| ProductPage.ReachableStatesKeepIndexInRange | src/app/presentation/pages/product-page/product-page.ts:112-113 | in every reachable state a shown list has its index in −1..len−1, so Enter never reads outside the list |
| SummaryPage.MethodName | src/app/presentation/pages/summary-page/summary-page.ts:31-38 | a name exists exactly for ids 1 to 6 |
| SummaryPage.MethodNamesDistinct | src/app/presentation/pages/summary-page/summary-page.ts:31-38 | distinct ids have distinct names |
| SummaryPage.PaymentMethodName | src/app/presentation/pages/summary-page/summary-page.ts:64-67 | `''` without data, without an id, for 0 or for an unknown id; non-empty exactly for ids 1 to 6 |
| SummaryPage.PaymentIcon | src/app/presentation/pages/summary-page/summary-page.ts:69-80 | the icon of the id's name, or the credit-card icon for unknown ids |
| SummaryPage.PaymentTable | src/app/presentation/pages/summary-page/summary-page.ts:31-78 | the six names and icons, id by id |
| SummaryPage.KnownMethodsHaveIcons | src/app/presentation/pages/summary-page/summary-page.ts:69-80 | every known name has an icon; only Credit Card shares the default one |
| SummaryPage.Init | src/app/presentation/pages/summary-page/summary-page.ts:47-58 | missing or empty data redirects to checkout with no order data; otherwise the data is parsed |
| SummaryPage.MakePayload | src/app/presentation/pages/summary-page/summary-page.ts:87-96 | the user's id and the order data's fields, copied as they are, absent without data |
| SummaryPage.AsWrittenPayloadHasNoUser | src/app/presentation/pages/summary-page/summary-page.ts:87-89 | with `getUserInfo()` as written every order is submitted without a user id |
| SummaryPage.IntendedPayloadCarriesSubject | src/app/presentation/pages/summary-page/summary-page.ts:87-89 | with the intended identity the order carries the token's subject |
| SummaryPage.ConfirmPayment | src/app/presentation/pages/summary-page/summary-page.ts:82-100 | ignored while processing; otherwise the flag is set before the payload is sent |
| SummaryPage.DoubleConfirmSubmitsOnce | src/app/presentation/pages/summary-page/summary-page.ts:83-85 | a second press before the answer sends nothing |
| SummaryPage.PaymentAnswered | src/app/presentation/pages/summary-page/summary-page.ts:101-116 | success clears the cart, removes the stored data and opens the orders dashboard, flag left set; failure only clears the flag; each raises its alert |
| SummaryPage.RetryOnlyAfterFailure | src/app/presentation/pages/summary-page/summary-page.ts:83-114 | after a failure a new press submits; after a success it does not |
| RegisterPage.OnRegister | src/app/presentation/pages/register-page/register-page.ts:38-71 | a mismatch alerts first; then missing terms; sign-in is reached iff both checks pass |
| RegisterPage.MismatchHidesTerms | src/app/presentation/pages/register-page/register-page.ts:39-47 | with mismatching passwords the terms box makes no difference |
| RegisterPage.PasswordStrength | src/app/presentation/pages/register-page/register-page.ts:87-92 | `''` iff empty, Weak iff 1–5, Medium iff 6–9, Strong iff 10 or more characters |
| RegisterPage.StrengthMonotone | src/app/presentation/pages/register-page/register-page.ts:87-92 | a longer password never rates lower |
| RegisterPage.StrengthDependsOnLength | src/app/presentation/pages/register-page/register-page.ts:87-92 | passwords of equal length rate the same |

## Left out

- The HTTP services (`ProductService`, `OrderService`, `UserService`, `AddressService`) and the subscribe plumbing: a server answer is a parameter of the handler that receives it.
- localStorage, sessionStorage, `JSON.stringify` and `JSON.parse`: storage is a field, and parsing is a parameter.
- The cart's restore from storage (`loadCartFromStorage`): it has no error handling, so a corrupt entry throws. `CartService.EmptyCart` is the cart before any restore.
- Base64 and JSON decoding of the token: these are the `Decoder` parameter. `atob` of a missing second piece throws and is caught, which the model shows as `None`.
- Floating-point money: `toFixed` and `formatPrice`, the checkout page's totals, and the overview's trend percentages. Amounts are exact integers of cents.
- Date formatting: `toLocaleDateString` and `formatDate`, so `OnDate` is not rendered to text. `new Date(...)` parsing is left out too; instants are integers.
- The RxJS `debounceTime` and `distinctUntilChanged` stages. A suggestion request that fails ends the RxJS subscription; the model keeps reacting to later queries.
- The 200 ms `setTimeout` of `hideSuggestions` is the event `HideTimer`, which acts only while a hide is pending. Several pending timers collapse into one flag.
- The Angular runtime: creating and attaching components, the DOM, `window.scrollTo` and the console. The modelled navigations and alerts appear as output values.
- The handlers that only navigate: `goBack` of the product and summary pages, and `navigateToOrders`, `navigateToProducts` and `navigateToProduct` of the overview and order pages. Each is one `router.navigate` call with a fixed path.
- Header names in `AttachBearer` are compared exactly. Angular's `HttpHeaders` compare names ignoring case, so a request that already carries `authorization` is not treated as the same header.
- The 403 path: no interceptor code handles it.
- Unicode case mapping and trimming: lowercasing covers ASCII letters only. The sort of the category list compares characters, while JavaScript compares UTF-16 code units; the two orders agree on ASCII.
- Route ids that are not integers: a route number is NaN or an integer.
- `selectImage`, `getUserInitials`, `hasPhotos`, `getPhotos`, the open and close helpers of the modals, and the image readers of the product forms. These are presentation helpers.
- The search page's `addToCart(product)`: it only forwards to `CartService.AddToCart`.
- The load-failure messages of the product and customer lists, and the alerts after a failed update or delete. In each of these cases the modelled page state stays unchanged.
- The registration data that `onRegister` logs. It is only printed.
- `password.length` counts UTF-16 code units; the model counts characters.
- UserPanel.HasAccess: a role whose lowered form names an `Object.prototype` member, such as `constructor`, makes the source's table lookup return a non-array and throw; the model gives such roles no access.
- The alert after the product page's add to cart (`Added N name(s) to cart!`) is left out; the cart it leaves is modelled.

## Findings

| source | as written | input that shows it | evidently intended | confidence | as-written member | corrected member |
|---|---|---|---|---|---|---|
| src/app/core/services/auth/auth.service.ts:41-51 | `getUserInfo()` returns only `{name, role}`, yet the orders page, the overview and the summary read `userInfo.id`. The TypeScript type checker also rejects these reads as written: `userInfo.id` at orders-page.ts:38 and summary-page.ts:89 names a property the declared type lacks, and the assignment at overview-page.ts:53 lacks the `surname` and `id` of the field's type, and the one at user-panel.ts:24 lacks the `surname` of its field's type | any valid session: the orders page and the overview report `User not authenticated` and load nothing, and every order is submitted with `userId` undefined | the user info also carries the token's `sub` as `id` (and `family_name` as the `surname` the overview declares) | not executed | AuthService.AsWrittenPageUser (with AuthService.AsWrittenSessionHasNoUserId, OrdersPage.AsWrittenInitNeverLoads, OverviewPage.AsWrittenInitNeverLoads, SummaryPage.AsWrittenPayloadHasNoUser) | AuthService.CurrentIdentity (with AuthService.IdentityHasUserIdIffSubject, OrdersPage.IntendedInitLoadsSubject, SummaryPage.IntendedPayloadCarriesSubject) |
