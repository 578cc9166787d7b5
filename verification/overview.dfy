/**
 * The user dashboard's landing page (`OverviewPage`): the authentication
 * guard and the three loads it starts, the order statistics, the activity
 * feed of the three newest orders, the popular products, the relative time
 * of an order and the greeting.
 */
module OverviewPage {
  import opened Wrappers
  import opened Text
  import opened Seqs
  import opened Domain
  import Sorting
  import AuthService

  const NotAuthenticated := "User not authenticated"

  /** The statuses counted as active, compared after lowering. */
  const ActiveStatuses: seq<string> := ["pending", "processing", "shipped"]
  const CompletedStatus := "completed"

  predicate IsActive(o: Order) {
    Lower(o.status) in ActiveStatuses
  }

  predicate IsCompleted(o: Order) {
    Lower(o.status) == CompletedStatus
  }

  /** A request the page starts on entry. */
  datatype Request = OrdersOf(userId: string) | AllProducts | JoinDateOf(userId: string)

  datatype Entry = Entry(error: Option<string>, requests: seq<Request>)

  /** `ngOnInit()`: without a user id only the error is set; otherwise the three loads start, in this order. */
  function Init(user: Option<AuthService.PageUser>): (r: Entry)
    ensures !AuthService.HasUserId(user) <==> r.requests == []
    ensures !AuthService.HasUserId(user) ==> r.error == Some(NotAuthenticated)
    ensures AuthService.HasUserId(user) ==>
      r.error.None? && r.requests == [OrdersOf(user.value.id.value), AllProducts, JoinDateOf(user.value.id.value)]
  {
    if !AuthService.HasUserId(user) then Entry(Some(NotAuthenticated), [])
    else Entry(None, [OrdersOf(user.value.id.value), AllProducts, JoinDateOf(user.value.id.value)])
  }

  /** With the session as `getUserInfo()` returns it, the dashboard never loads anything. */
  lemma AsWrittenInitNeverLoads(store: AuthService.TokenStore, decode: AuthService.Decoder)
    ensures Init(AuthService.AsWrittenPageUser(AuthService.GetUserInfo(store, decode))) == Entry(Some(NotAuthenticated), [])
  {
    AuthService.AsWrittenSessionHasNoUserId(store, decode);
  }

  /** The statistics of `calculateStats()`; amounts in cents, the average exact. */
  datatype Stats = Stats(totalOrders: nat, activeOrders: nat, completedOrders: nat, totalSpent: int, averageOrderValue: real)

  function Amount(o: Order): int {
    o.totalAmount
  }

  /** `calculateStats()`. */
  function CalculateStats(orders: seq<Order>): (r: Stats)
    ensures r.totalOrders == |orders|
    ensures r.activeOrders == |Filter(orders, IsActive)| && r.completedOrders == |Filter(orders, IsCompleted)|
    ensures r.totalSpent == Sum(orders, Amount)
    ensures IsAverage(r.averageOrderValue, r.totalSpent, r.totalOrders)
  {
    var total := Sum(orders, Amount);
    Stats(|orders|, Count(orders, IsActive), Count(orders, IsCompleted), total, AverageOrZero(total, |orders|))
  }

  /** `avg` is `total / count`, or 0 without anything to count: multiplied back it gives the total. */
  predicate IsAverage(avg: real, total: int, count: nat) {
    && (count == 0 ==> avg == 0.0)
    && (count > 0 ==> avg * (count as real) == total as real)
  }

  /** `count > 0 ? total / count : 0`. */
  function AverageOrZero(total: int, count: nat): (r: real)
    ensures IsAverage(r, total, count)
  {
    if count > 0 then Average(total, count) else 0.0
  }

  /** `total / count` over exact reals. */
  function Average(total: int, count: nat): (r: real)
    requires count > 0
    ensures r * (count as real) == total as real
  {
    total as real / count as real
  }

  /** No order is both active and completed, so the two counts fit within the total. */
  lemma ActiveAndCompletedDisjoint(orders: seq<Order>)
    ensures CalculateStats(orders).activeOrders + CalculateStats(orders).completedOrders <= CalculateStats(orders).totalOrders
  {
    forall o: Order
      ensures !(IsActive(o) && IsCompleted(o))
    {
      if IsActive(o) {
        assert Lower(o.status) != CompletedStatus;
      }
    }
    CountDisjoint(orders, IsActive, IsCompleted);
  }

  /** The statuses ignore case: a status is counted the same however it is capitalised. */
  lemma StatusCaseInsensitive(o: Order, status: string)
    requires Lower(status) == Lower(o.status)
    ensures IsActive(o.(status := status)) == IsActive(o)
    ensures IsCompleted(o.(status := status)) == IsCompleted(o)
  {
  }

  const HourMs := 3600000

  /** What `getRelativeTime` says: recent, some hours, some days, or the formatted date. */
  datatype RelativeTime = JustNow | HoursAgo(hours: nat) | DaysAgo(days: nat) | OnDate(instant: int)

  /** The buckets of `getRelativeTime`, from the whole hours elapsed (floored; a future instant counts as just now). */
  function GetRelativeTime(createdAt: int, nowMs: int): (r: RelativeTime)
    ensures r == JustNow <==> nowMs - createdAt < HourMs
    ensures r.HoursAgo? <==> HourMs <= nowMs - createdAt < 24 * HourMs
    ensures r.HoursAgo? ==> r.hours * HourMs <= nowMs - createdAt < (r.hours + 1) * HourMs && 1 <= r.hours < 24
    ensures r.DaysAgo? <==> 24 * HourMs <= nowMs - createdAt < 7 * 24 * HourMs
    ensures r.DaysAgo? ==> r.days * 24 * HourMs <= nowMs - createdAt < (r.days + 1) * 24 * HourMs && 1 <= r.days < 7
    ensures r.OnDate? <==> nowMs - createdAt >= 7 * 24 * HourMs
    ensures r.OnDate? ==> r.instant == createdAt
  {
    var hours := (nowMs - createdAt) / HourMs;
    var days := hours / 24;
    if hours < 1 then JustNow
    else if hours < 24 then HoursAgo(hours)
    else if days < 7 then DaysAgo(days)
    else OnDate(createdAt)
  }

  /** `N unit` with an `s` only when N is more than one. */
  function Plural(n: nat, unit: string): string {
    NatToString(n) + " " + unit + (if n > 1 then "s" else "") + " ago"
  }

  /** The text of the first three buckets; the formatted date of the last is not modelled. */
  function RenderRelativeTime(t: RelativeTime): (r: Option<string>)
    ensures t.OnDate? <==> r.None?
    ensures t == JustNow ==> r == Some("Just now")
    ensures t.HoursAgo? ==> r == Some(Plural(t.hours, "hour"))
    ensures t.DaysAgo? ==> r == Some(Plural(t.days, "day"))
  {
    match t
    case JustNow => Some("Just now")
    case HoursAgo(h) => Some(Plural(h, "hour"))
    case DaysAgo(d) => Some(Plural(d, "day"))
    case OnDate(_) => None
  }

  /** A rendered count reads back as the number of hours or days. */
  lemma RenderedCountReadsBack(t: RelativeTime)
    requires t.HoursAgo? || t.DaysAgo?
    ensures var n := if t.HoursAgo? then t.hours else t.days;
      var s := RenderRelativeTime(t).value;
      DigitsValue(s[..|NatToString(n)|]) == n && s[|NatToString(n)|] == ' '
  {
    var n := if t.HoursAgo? then t.hours else t.days;
    var unit := if t.HoursAgo? then "hour" else "day";
    var s := RenderRelativeTime(t).value;
    assert s == NatToString(n) + (" " + unit + (if n > 1 then "s" else "") + " ago");
    assert s[..|NatToString(n)|] == NatToString(n);
    NatToStringValue(n);
  }

  /** For a unit not ending in `s`, the plural `s` appears exactly when the count exceeds one. */
  lemma PluralOnlyAboveOne(n: nat, unit: string)
    requires |unit| > 0 && unit[|unit| - 1] != 's'
    ensures var s := Plural(n, unit);
      s[|s| - 5] == 's' <==> n > 1
  {
    var s := Plural(n, unit);
    if n <= 1 {
      assert s == (NatToString(n) + " " + unit) + " ago";
    } else {
      assert s == (NatToString(n) + " " + unit + "s") + " ago";
    }
  }

  /** One entry of the activity feed; the description's formatted price is not modelled, only the order reference it shows. */
  datatype Activity = Activity(icon: string, iconColor: string, title: string, reference: string, time: RelativeTime)

  /** The order reference the description shows: `orderGuid.substring(0, 8)`. */
  function Reference(guid: string): (r: string)
    ensures |r| <= 8 && |r| <= |guid| && r == guid[..|r|]
  {
    Take(guid, 8)
  }

  function ToActivity(o: Order, nowMs: int): (a: Activity)
    ensures IsCompleted(o) ==> a.icon == "fa-check-circle" && a.iconColor == "green"
    ensures !IsCompleted(o) ==> a.icon == "fa-shopping-bag" && a.iconColor == "orange"
    ensures a.title == "Order " + o.status
    ensures a.time == GetRelativeTime(o.createdAt, nowMs)
  {
    var done := IsCompleted(o);
    Activity(
      if done then "fa-check-circle" else "fa-shopping-bag",
      if done then "green" else "orange",
      "Order " + o.status,
      Reference(o.orderGuid),
      GetRelativeTime(o.createdAt, nowMs))
  }

  /** `generateActivityFeed()`: the first three orders, one entry each, in order. */
  function ActivityFeed(orders: seq<Order>, nowMs: int): (r: seq<Activity>)
    ensures |r| == if |orders| < 3 then |orders| else 3
    ensures forall i :: 0 <= i < |r| ==> r[i] == ToActivity(orders[i], nowMs)
  {
    var recent := Take(orders, 3);
    var feed := seq(|recent|, i requires 0 <= i < |recent| => ToActivity(recent[i], nowMs));
    Take(feed, 5)
  }

  function CreatedAt(o: Order): int {
    o.createdAt
  }

  /** The orders arrived: sorted newest first, so the feed shows the newest three. */
  lemma FeedShowsNewest(orders: seq<Order>, nowMs: int)
    ensures var sorted := Sorting.SortDesc(orders, CreatedAt);
      var feed := ActivityFeed(sorted, nowMs);
      forall i, j :: 0 <= i < |feed| && |feed| <= j < |sorted| ==> sorted[i].createdAt >= sorted[j].createdAt
  {
    Sorting.SortDescSorted(orders, CreatedAt);
  }

  const DashboardFailed := "Failed to load dashboard data"

  /** What the answer to the orders request leaves on the page. */
  datatype Dashboard = Dashboard(orders: seq<Order>, stats: Stats, activities: seq<Activity>, error: Option<string>)

  /**
   * The answer to the orders request: the orders sorted newest first, with
   * the statistics and the feed recomputed from them; a failure only sets
   * the error. The sort changes neither the count nor the amount spent.
   */
  function DashboardAnswered(d: Dashboard, reply: Option<seq<Order>>, nowMs: int): (r: Dashboard)
    ensures reply.None? ==> r == d.(error := Some(DashboardFailed))
    ensures reply.Some? ==>
      && multiset(r.orders) == multiset(reply.value) && Sorting.SortedDesc(r.orders, CreatedAt)
      && r.stats == CalculateStats(r.orders)
      && r.stats.totalOrders == |reply.value| && r.stats.totalSpent == Sum(reply.value, Amount)
      && r.activities == ActivityFeed(r.orders, nowMs) && r.error == d.error
  {
    match reply
    case None => d.(error := Some(DashboardFailed))
    case Some(orders) =>
      var sorted := Sorting.SortDesc(orders, CreatedAt);
      Sorting.SortDescSorted(orders, CreatedAt);
      SumPermutation(sorted, orders, Amount);
      Dashboard(sorted, CalculateStats(sorted), ActivityFeed(sorted, nowMs), d.error)
  }

  function InStock(p: Product): bool {
    p.stock > 0
  }

  /** `loadPopularProducts()`' filtering: the first four products in stock, in their original order. */
  function PopularProducts(products: seq<Product>): (r: seq<Product>)
    ensures |r| <= 4
    ensures forall p :: p in r ==> p in products && p.stock > 0
    ensures IsSubsequence(r, products)
  {
    var inStock := Filter(products, InStock);
    var popular := Take(inStock, 4);
    FilterIsSubsequence(products, InStock);
    PrefixIsSubsequence(popular, inStock);
    SubsequenceTransitive(popular, inStock, products);
    assert forall p :: p in popular ==> p in inStock;
    popular
  }

  /** The answer to the products request: the popular products, or none when the request failed. */
  function PopularAnswered(reply: Option<seq<Product>>): (r: seq<Product>)
    ensures reply.None? ==> r == []
    ensures reply.Some? ==> |r| <= 4 && IsSubsequence(r, reply.value)
    ensures reply.Some? ==> forall p :: p in r ==> p in reply.value && p.stock > 0
  {
    match reply
    case None => []
    case Some(products) => PopularProducts(products)
  }

  /** Unless fewer than four are in stock, exactly four are shown; none is left out in favour of a later one. */
  lemma PopularProductsAreTheFirst(products: seq<Product>)
    ensures |Filter(products, InStock)| >= 4 ==> |PopularProducts(products)| == 4
    ensures |Filter(products, InStock)| < 4 ==> PopularProducts(products) == Filter(products, InStock)
    ensures PopularProducts(products) == Filter(products, InStock)[..|PopularProducts(products)|]
  {
  }

  /** `getGreeting()` for the current local hour. */
  function Greeting(hour: int): (r: string)
    ensures r == "Good Morning" <==> hour < 12
    ensures r == "Good Afternoon" <==> 12 <= hour < 18
    ensures r == "Good Evening" <==> hour >= 18
  {
    if hour < 12 then "Good Morning" else if hour < 18 then "Good Afternoon" else "Good Evening"
  }

  /** `loadMemberSinceDate()` once answered: the join date, or the current instant when the call failed. */
  function MemberSince(reply: Option<int>, nowMs: int): (r: int)
    ensures reply.Some? ==> r == reply.value
    ensures reply.None? ==> r == nowMs
  {
    reply.GetOr(nowMs)
  }
}
