/**
 * The records the storefront exchanges with its backend. Prices and amounts
 * are integer cents; instants (`createdAt`, `exp` aside) are integer
 * milliseconds since the epoch.
 */
module Domain {
  import opened Wrappers

  datatype Product = Product(
    id: int,
    name: string,
    category: string,
    description: string,
    price: int,
    stock: int,
    base64Image: string)

  datatype User = User(
    id: int,
    name: string,
    surname: string,
    email: string,
    role: string,
    createdAt: int,
    dateOfBirth: int,
    isActive: bool)

  datatype UserAddress = UserAddress(
    id: int,
    street: string,
    city: string,
    postalCode: string,
    country: string,
    isDefault: bool,
    addressLabel: string,
    phoneNumber: string,
    phoneAreaCode: string)

  datatype OrderItem = OrderItem(
    id: int,
    product: Product,
    quantity: int,
    unitPrice: int,
    subtotal: int)

  datatype Order = Order(
    id: int,
    orderGuid: string,
    totalAmount: int,
    status: string,
    notes: Option<string>,
    createdAt: int,
    updatedAt: int,
    items: seq<OrderItem>)

  /** The claims carried in the payload segment of the bearer token; `exp` is in epoch seconds. */
  datatype JwtClaims = JwtClaims(
    sub: string,
    givenName: string,
    familyName: string,
    email: string,
    role: string,
    jti: string,
    exp: int,
    iss: string,
    aud: string)
}
