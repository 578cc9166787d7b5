/**
 * The admin customer list (`CustomersPage`): the users sorted newest first,
 * the role filter, the search over name, surname and e-mail, six users per
 * page, the role counters and the local list update after a delete.
 */
module CustomersPage {
  import opened Wrappers
  import opened Text
  import opened Seqs
  import opened Domain
  import Paging
  import Sorting

  const ItemsPerPage := 6

  /** The filter value that skips the role filter (compared case-sensitively). */
  const AllFilter := "all"

  function CreatedAt(u: User): int {
    u.createdAt
  }

  /** The users as loaded: newest account first, a permutation of the response. */
  function Arrange(users: seq<User>): (r: seq<User>)
    ensures multiset(r) == multiset(users) && |r| == |users|
    ensures Sorting.SortedDesc(r, CreatedAt)
  {
    Sorting.SortDescSorted(users, CreatedAt);
    Sorting.SortDesc(users, CreatedAt)
  }

  function RoleFilter(filter: string): User -> bool {
    (u: User) => EqualsIgnoreCase(u.role, filter)
  }

  /** Whether a non-blank query matches: the lowered name, surname or e-mail contains the lowered query. */
  predicate Matches(u: User, query: string) {
    || Contains(Lower(u.name), Lower(query))
    || Contains(Lower(u.surname), Lower(query))
    || Contains(Lower(u.email), Lower(query))
  }

  function SearchFilter(query: string): User -> bool {
    (u: User) => Matches(u, query)
  }

  /** Whether `applyFilters` keeps a user. */
  predicate Kept(u: User, filter: string, query: string) {
    && (filter == AllFilter || EqualsIgnoreCase(u.role, filter))
    && (IsBlank(query) || Matches(u, query))
  }

  /** What the first stage lets through, as one predicate. */
  function RoleStage(filter: string): User -> bool {
    (u: User) => filter == AllFilter || EqualsIgnoreCase(u.role, filter)
  }

  /** What the second stage lets through, as one predicate. */
  function SearchStage(query: string): User -> bool {
    (u: User) => IsBlank(query) || Matches(u, query)
  }

  /** What both stages let through, as one predicate. */
  function KeptBy(filter: string, query: string): User -> bool {
    (u: User) => Kept(u, filter, query)
  }

  /** The first stage of `applyFilters`: the role filter unless it is `'all'`. */
  function ByRole(users: seq<User>, filter: string): (r: seq<User>)
    ensures r == Filter(users, RoleStage(filter))
    ensures forall u :: u in r <==> u in users && (filter == AllFilter || EqualsIgnoreCase(u.role, filter))
    ensures IsSubsequence(r, users)
  {
    if filter != AllFilter then
      FilterIsSubsequence(users, RoleFilter(filter));
      FilterExtensional(users, RoleFilter(filter), RoleStage(filter));
      Filter(users, RoleFilter(filter))
    else
      FilterAll(users, RoleStage(filter));
      FilterIsSubsequence(users, RoleStage(filter));
      users
  }

  /** The second stage: the search filter unless the query trims to nothing. */
  function BySearch(users: seq<User>, query: string): (r: seq<User>)
    ensures r == Filter(users, SearchStage(query))
    ensures forall u :: u in r <==> (u in users && (IsBlank(query) || Matches(u, query)))
    ensures IsSubsequence(r, users)
  {
    TrimEmptyIffBlank(query);
    if |Trim(query)| > 0 then
      FilterIsSubsequence(users, SearchFilter(query));
      FilterExtensional(users, SearchFilter(query), SearchStage(query));
      Filter(users, SearchFilter(query))
    else
      FilterAll(users, SearchStage(query));
      FilterIsSubsequence(users, SearchStage(query));
      users
  }

  /**
   * `applyFilters`' filtering: by role (case-insensitively) unless the
   * filter is `'all'`, then by a non-blank query. The two stages together
   * are one `filter` by both conditions: order and copies are kept.
   */
  function ApplyFilters(users: seq<User>, filter: string, query: string): (r: seq<User>)
    ensures r == Filter(users, KeptBy(filter, query))
    ensures forall u :: multiset(r)[u] == if Kept(u, filter, query) then multiset(users)[u] else 0
    ensures forall u :: u in r <==> u in users && Kept(u, filter, query)
    ensures IsSubsequence(r, users)
  {
    var byRole := ByRole(users, filter);
    SubsequenceTransitive(BySearch(byRole, query), byRole, users);
    FilterFilter(users, RoleStage(filter), SearchStage(query), KeptBy(filter, query));
    FilterMultiplicity(users, KeptBy(filter, query));
    BySearch(byRole, query)
  }

  datatype Page = Page(users: seq<User>, activeFilter: string, searchQuery: string, listing: Paging.Listing<User>)

  const Initial: Page := Page([], AllFilter, "", Paging.Listing([], 1, 0, []))

  ghost predicate Shows(st: Page) {
    && st.listing.filtered == ApplyFilters(st.users, st.activeFilter, st.searchQuery)
    && Paging.Coherent(st.listing, ItemsPerPage)
  }

  /** `applyFilters` followed by `updatePaginatedUsers`, on the current page. */
  function Refresh(st: Page): (r: Page)
    ensures Shows(r)
    ensures r.listing.currentPage == st.listing.currentPage
    ensures r.users == st.users && r.activeFilter == st.activeFilter && r.searchQuery == st.searchQuery
    ensures r == st.(listing := r.listing)
  {
    st.(listing := Paging.Publish(ApplyFilters(st.users, st.activeFilter, st.searchQuery), st.listing.currentPage, ItemsPerPage))
  }

  /** The users arrived: sort them newest first and rebuild the listing. */
  function Loaded(st: Page, users: seq<User>): (r: Page)
    ensures Shows(r)
    ensures multiset(r.users) == multiset(users) && Sorting.SortedDesc(r.users, CreatedAt)
    ensures r == st.(users := Arrange(users), listing := r.listing)
    ensures r.listing.currentPage == st.listing.currentPage
  {
    Refresh(st.(users := Arrange(users)))
  }

  /** `filterUsers(role)`. */
  function FilterUsers(st: Page, role: string): (r: Page)
    ensures Shows(r) && r.activeFilter == role && r.listing.currentPage == 1
    ensures r == st.(activeFilter := role, listing := r.listing)
  {
    Refresh(st.(activeFilter := role, listing := st.listing.(currentPage := 1)))
  }

  /** `onSearchChange()` after the bound query became `query`. */
  function SearchChanged(st: Page, query: string): (r: Page)
    ensures Shows(r) && r.searchQuery == query && r.listing.currentPage == 1
    ensures r == st.(searchQuery := query, listing := r.listing)
  {
    Refresh(st.(searchQuery := query, listing := st.listing.(currentPage := 1)))
  }

  /** `goToPage(page)`. */
  function GoToPage(st: Page, page: int): (r: Page)
    ensures Shows(st) ==> Shows(r)
    ensures 1 <= page <= st.listing.totalPages ==> r.listing.currentPage == page
    ensures !(1 <= page <= st.listing.totalPages) ==> r == st
    ensures r == st.(listing := r.listing) && r.listing.filtered == st.listing.filtered
  {
    st.(listing := Paging.GoTo(st.listing, page, ItemsPerPage))
  }

  /** `getVisiblePages()`. */
  method VisiblePages(st: Page) returns (pages: seq<int>)
    ensures pages == Paging.IntendedWindow(st.listing.totalPages, st.listing.currentPage)
  {
    pages := Paging.VisiblePages(st.listing.totalPages, st.listing.currentPage);
  }

  predicate IsAdmin(u: User) {
    Lower(u.role) == "admin"
  }

  predicate IsPlainUser(u: User) {
    Lower(u.role) == "user"
  }

  /** `getAdminCount()`: roles equal to `admin` ignoring case. */
  function AdminCount(users: seq<User>): (r: nat)
    ensures r <= |users|
    ensures r > 0 <==> exists u :: u in users && Lower(u.role) == "admin"
  {
    CountPositive(users, IsAdmin);
    Count(users, IsAdmin)
  }

  /** `getUserCount()`: roles equal to `user` ignoring case. */
  function UserCount(users: seq<User>): (r: nat)
    ensures r <= |users|
    ensures r > 0 <==> exists u :: u in users && Lower(u.role) == "user"
  {
    CountPositive(users, IsPlainUser);
    Count(users, IsPlainUser)
  }

  /** No user is counted both as an admin and as a user. */
  lemma RoleCountersDisjoint(users: seq<User>)
    ensures AdminCount(users) + UserCount(users) <= |users|
  {
    CountDisjoint(users, IsAdmin, IsPlainUser);
  }

  /** `getRoleBadgeClass(role)`. */
  function RoleBadgeClass(role: string): (r: string)
    ensures r == "role-admin" <==> Lower(role) == "admin"
    ensures r == "role-user" <==> Lower(role) != "admin"
  {
    if Lower(role) == "admin" then "role-admin" else "role-user"
  }

  /** The badge and the admin counter agree: a user has the admin badge exactly when counted as an admin. */
  lemma BadgeAgreesWithAdminCount(users: seq<User>, u: User)
    requires u in users
    ensures RoleBadgeClass(u.role) == "role-admin" <==> u in Filter(users, IsAdmin)
  {
  }

  /** What the delete call resolved to: the service's success flag, or an error. */
  datatype DeleteReply = Deleted(success: bool) | DeleteError

  /** The users a delete of `id` keeps. */
  function OtherId(id: int): User -> bool {
    (u: User) => u.id != id
  }

  /**
   * `confirmDelete()`: after a successful delete every user with the
   * selected id leaves the list, and every other user stays, each copy, in
   * order.
   */
  function ConfirmDelete(st: Page, selected: Option<User>, reply: DeleteReply): (r: Page)
    ensures selected.None? || reply != Deleted(true) ==> r == st
    ensures selected.Some? && reply == Deleted(true) ==>
      && Shows(r)
      && r.users == Filter(st.users, OtherId(selected.value.id))
      && (forall u :: multiset(r.users)[u] == if u.id != selected.value.id then multiset(st.users)[u] else 0)
      && (forall u :: u in r.users <==> u in st.users && u.id != selected.value.id)
      && IsSubsequence(r.users, st.users)
      && r == st.(users := r.users, listing := r.listing)
      && r.listing.currentPage == st.listing.currentPage
  {
    match selected
    case None => st
    case Some(s) =>
      if reply == Deleted(true) then
        FilterIsSubsequence(st.users, OtherId(s.id));
        FilterMultiplicity(st.users, OtherId(s.id));
        Refresh(st.(users := Filter(st.users, OtherId(s.id))))
      else st
  }
}
