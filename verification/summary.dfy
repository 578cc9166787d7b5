/**
 * The order summary before payment (`SummaryPage`): the order data handed
 * over by checkout, the payment method's name and icon, and the payment
 * confirmation with its re-entrancy guard.
 *
 * `JSON.parse` of the stored order data is the parameter `parse`; a parse
 * that throws is not modelled.
 */
module SummaryPage {
  import opened Wrappers
  import opened Domain
  import CartService
  import AuthService

  datatype DeliveryMethod = Delivery | Pickup

  /** What checkout stores under `orderData`; amounts in cents. */
  datatype OrderData = OrderData(
    cartItems: seq<CartService.CartItem>,
    subtotal: int,
    shipping: int,
    total: int,
    deliveryMethod: DeliveryMethod,
    selectedAddress: Option<UserAddress>,
    paymentMethodId: Option<int>,
    notes: Option<string>)

  /** The `paymentMethodNames` table. */
  function MethodName(id: int): (r: Option<string>)
    ensures r.Some? <==> 1 <= id <= 6
  {
    if id == 1 then Some("BLIK")
    else if id == 2 then Some("Credit Card")
    else if id == 3 then Some("PayPal")
    else if id == 4 then Some("Apple Pay")
    else if id == 5 then Some("Google Pay")
    else if id == 6 then Some("Cash on Pickup")
    else None
  }

  /** The icon table, keyed by method name. */
  function NameIcon(name: string): (r: Option<string>) {
    if name == "BLIK" then Some("fas fa-mobile-alt")
    else if name == "Credit Card" then Some("fas fa-credit-card")
    else if name == "PayPal" then Some("fab fa-paypal")
    else if name == "Apple Pay" then Some("fab fa-apple")
    else if name == "Google Pay" then Some("fab fa-google")
    else if name == "Cash on Pickup" then Some("fas fa-money-bill-wave")
    else None
  }

  /** Distinct ids have distinct names, so the name identifies the method. */
  lemma MethodNamesDistinct(a: int, b: int)
    requires MethodName(a).Some? && MethodName(b).Some? && a != b
    ensures MethodName(a) != MethodName(b)
  {
  }

  /** `getPaymentMethodName()`: `''` without order data, for a missing or zero id, and for an unknown one. */
  function PaymentMethodName(data: Option<OrderData>): (r: string)
    ensures data.None? || data.value.paymentMethodId.None? ==> r == ""
    ensures data.Some? && data.value.paymentMethodId.Some? ==>
      r == MethodName(data.value.paymentMethodId.value).GetOr("")
    ensures r != "" <==> data.Some? && data.value.paymentMethodId.Some? && 1 <= data.value.paymentMethodId.value <= 6
  {
    match data
    case None => ""
    case Some(d) =>
      match d.paymentMethodId
      case None => ""
      case Some(id) => if id == 0 then "" else MethodName(id).GetOr("")
  }

  /** `getPaymentIcon(methodId)`: the icon of the method's name, or the credit-card icon. */
  function PaymentIcon(methodId: int): (r: string)
    ensures 1 <= methodId <= 6 ==> r == NameIcon(MethodName(methodId).value).value
    ensures !(1 <= methodId <= 6) ==> r == "fas fa-credit-card"
  {
    match MethodName(methodId)
    case None => "fas fa-credit-card"
    case Some(name) => NameIcon(name).GetOr("fas fa-credit-card")
  }

  /** The whole table, id by id. */
  lemma PaymentTable()
    ensures PaymentIcon(1) == "fas fa-mobile-alt" && MethodName(1) == Some("BLIK")
    ensures PaymentIcon(2) == "fas fa-credit-card" && MethodName(2) == Some("Credit Card")
    ensures PaymentIcon(3) == "fab fa-paypal" && MethodName(3) == Some("PayPal")
    ensures PaymentIcon(4) == "fab fa-apple" && MethodName(4) == Some("Apple Pay")
    ensures PaymentIcon(5) == "fab fa-google" && MethodName(5) == Some("Google Pay")
    ensures PaymentIcon(6) == "fas fa-money-bill-wave" && MethodName(6) == Some("Cash on Pickup")
  {
  }

  /** Every named method has its own icon, except that Credit Card shares the default one. */
  lemma KnownMethodsHaveIcons(id: int)
    requires 1 <= id <= 6
    ensures NameIcon(MethodName(id).value).Some?
    ensures PaymentIcon(id) == "fas fa-credit-card" <==> id == 2
  {
  }

  datatype Route = Checkout | OrdersDashboard

  /** The page's state: the parsed order data and the processing flag. */
  datatype Page = Page(orderData: Option<OrderData>, isProcessing: bool)

  /** `ngOnInit()`: missing or empty stored data sends the user back to checkout. */
  function Init(stored: Option<string>, parse: string -> OrderData): (r: (Page, Option<Route>))
    ensures stored.None? || stored == Some("") ==> r == (Page(None, false), Some(Checkout))
    ensures stored.Some? && stored.value != "" ==> r == (Page(Some(parse(stored.value)), false), None)
  {
    match stored
    case None => (Page(None, false), Some(Checkout))
    case Some(s) => if s == "" then (Page(None, false), Some(Checkout)) else (Page(Some(parse(s)), false), None)
  }

  /** The order the page submits; a field is absent when there is no order data. */
  datatype Payload = Payload(
    userId: Option<string>,
    deliveryMethod: Option<DeliveryMethod>,
    selectedAddress: Option<UserAddress>,
    paymentMethodId: Option<int>,
    cartItems: Option<seq<CartService.CartItem>>,
    total: Option<int>,
    notes: Option<string>)

  /** The payload of `confirmPayment()`: the session's user id and the order data's fields, as they are. */
  function MakePayload(user: Option<AuthService.PageUser>, data: Option<OrderData>): (r: Payload)
    ensures r.userId == (if user.Some? then user.value.id else None)
    ensures data.None? ==> r == Payload(r.userId, None, None, None, None, None, None)
    ensures data.Some? ==>
      && r.deliveryMethod == Some(data.value.deliveryMethod)
      && r.selectedAddress == data.value.selectedAddress
      && r.paymentMethodId == data.value.paymentMethodId
      && r.cartItems == Some(data.value.cartItems)
      && r.total == Some(data.value.total)
      && r.notes == data.value.notes
  {
    var userId := if user.Some? then user.value.id else None;
    match data
    case None => Payload(userId, None, None, None, None, None, None)
    case Some(d) =>
      Payload(userId, Some(d.deliveryMethod), d.selectedAddress, d.paymentMethodId, Some(d.cartItems), Some(d.total), d.notes)
  }

  /** As written the session gives no id, so every submitted order has no user. */
  lemma AsWrittenPayloadHasNoUser(store: AuthService.TokenStore, decode: AuthService.Decoder, data: Option<OrderData>)
    ensures MakePayload(AuthService.AsWrittenPageUser(AuthService.GetUserInfo(store, decode)), data).userId.None?
  {
  }

  /** With the intended identity the order carries the token's subject. */
  lemma IntendedPayloadCarriesSubject(store: AuthService.TokenStore, decode: AuthService.Decoder, data: Option<OrderData>)
    requires AuthService.DecodeToken(store, decode).Some?
    ensures MakePayload(AuthService.CurrentIdentity(store, decode), data).userId
      == Some(AuthService.DecodeToken(store, decode).value.sub)
  {
  }

  /** `confirmPayment()` up to the request: ignored while processing, otherwise flags and submits. */
  function ConfirmPayment(st: Page, user: Option<AuthService.PageUser>): (r: (Page, Option<Payload>))
    ensures st.isProcessing ==> r == (st, None)
    ensures !st.isProcessing ==> r == (st.(isProcessing := true), Some(MakePayload(user, st.orderData)))
  {
    if st.isProcessing then (st, None) else (st.(isProcessing := true), Some(MakePayload(user, st.orderData)))
  }

  /** A second confirmation before the first is answered sends nothing. */
  lemma DoubleConfirmSubmitsOnce(st: Page, user: Option<AuthService.PageUser>)
    ensures var (once, sent) := ConfirmPayment(st, user);
      ConfirmPayment(once, user) == (once, None) && once.isProcessing
  {
  }

  const PaymentSucceeded := "Payment successful! Order has been placed."
  const PaymentFailed := "Payment failed. Please try again."

  /** Everything the answer to the order request touches, with the alert it raises. */
  datatype World = World(page: Page, cart: CartService.Cart, stored: Option<string>, route: Option<Route>, alert: Option<string>)

  /**
   * The answer to the order request: on success the cart is cleared, the
   * stored order data removed and the orders dashboard opened, with the flag
   * left set; on failure the flag is cleared and nothing else changes but
   * the alert.
   */
  function PaymentAnswered(w: World, success: bool): (r: World)
    ensures success ==> r.cart.items == [] && r.cart.count == 0 && r.cart.total == 0
    ensures success ==> r.stored.None? && r.route == Some(OrdersDashboard) && r.page == w.page
    ensures success ==> r.alert == Some(PaymentSucceeded)
    ensures !success ==> r == w.(page := w.page.(isProcessing := false), alert := Some(PaymentFailed))
  {
    if success then
      w.(alert := Some(PaymentSucceeded), cart := CartService.ClearCart(w.cart), stored := None, route := Some(OrdersDashboard))
    else w.(alert := Some(PaymentFailed), page := w.page.(isProcessing := false))
  }

  /** After a failure the user can confirm again; after a success the page stays locked. */
  lemma RetryOnlyAfterFailure(w: World, success: bool, user: Option<AuthService.PageUser>)
    requires w.page.isProcessing
    ensures var r := PaymentAnswered(w, success);
      ConfirmPayment(r.page, user).1.Some? <==> !success
  {
  }
}
