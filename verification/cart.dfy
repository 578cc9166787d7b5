/**
 * The cart store (`CartService`): an id-keyed sequence of lines with the
 * count and total derived from them after every mutation.
 *
 * The stock ceiling is not uniform: `addToCart` compares the line's quantity
 * with the stock of the product passed in, `updateQuantity` with the stock
 * recorded on the line when it was first added, and a new line starts at
 * quantity 1 whatever the stock. So there is no `quantity <= stock`
 * invariant to keep, and none is assumed here.
 */
module CartService {
  import opened Wrappers
  import opened Seqs
  import opened Domain

  datatype CartItem = CartItem(
    id: int,
    name: string,
    price: int,
    quantity: int,
    base64Image: string,
    stock: int)

  /** What the service publishes: the lines, the item count and the total (in cents). */
  datatype Cart = Cart(items: seq<CartItem>, count: int, total: int)

  function Quantity(item: CartItem): int {
    item.quantity
  }

  function LineTotal(item: CartItem): int {
    item.price * item.quantity
  }

  /** The published count and total are the sums over the published lines. */
  ghost predicate Consistent(c: Cart) {
    && c.count == Sum(c.items, Quantity)
    && c.total == Sum(c.items, LineTotal)
  }

  /** At most one line per product id. */
  ghost predicate UniqueIds(items: seq<CartItem>) {
    forall i, j :: 0 <= i < j < |items| ==> items[i].id != items[j].id
  }

  predicate InCart(items: seq<CartItem>, id: int) {
    exists i :: 0 <= i < |items| && items[i].id == id
  }

  /** The cart the service starts with before anything is restored. */
  const EmptyCart: Cart := Cart([], 0, 0)

  /** `updateCart`: publish the lines with their recomputed count and total. */
  function UpdateCart(items: seq<CartItem>): (c: Cart)
    ensures c.items == items
    ensures Consistent(c)
  {
    Cart(items, Sum(items, Quantity), Sum(items, LineTotal))
  }

  /** `items.find(item => item.id === id)`, as the index of the first line with that id. */
  function FindIndex(items: seq<CartItem>, id: int): (r: Option<nat>)
    ensures r.None? <==> !InCart(items, id)
    ensures r.Some? ==> r.value < |items| && items[r.value].id == id
    ensures r.Some? ==> forall j :: 0 <= j < r.value ==> items[j].id != id
    decreases |items|
  {
    if |items| == 0 then None
    else if items[0].id == id then Some(0)
    else match FindIndex(items[1..], id)
      case None => None
      case Some(k) => Some(k + 1)
  }

  /** The line `addToCart` creates for a product not yet in the cart. */
  function NewItem(p: Product): CartItem {
    CartItem(p.id, p.name, p.price, 1, p.base64Image, p.stock)
  }

  /** `addToCart(product)`. */
  function AddToCart(c: Cart, p: Product): (r: Cart)
    ensures Consistent(r)
    ensures InCart(r.items, p.id)
  {
    match FindIndex(c.items, p.id)
    case Some(i) =>
      var item := c.items[i];
      var raised := c.items[i := item.(quantity := item.quantity + 1)];
      assert raised[i].id == p.id;
      if item.quantity < p.stock then UpdateCart(raised) else UpdateCart(c.items)
    case None =>
      UpdateCart(c.items + [NewItem(p)])
  }

  /** `removeFromCart(productId)`. */
  function RemoveFromCart(c: Cart, id: int): (r: Cart)
    ensures Consistent(r)
    ensures !InCart(r.items, id)
  {
    var kept := Filter(c.items, (item: CartItem) => item.id != id);
    assert forall i :: 0 <= i < |kept| ==> kept[i] in kept;
    UpdateCart(kept)
  }

  /** `updateQuantity(productId, quantity)`. */
  function UpdateQuantity(c: Cart, id: int, quantity: int): (r: Cart)
    ensures Consistent(c) ==> Consistent(r)
  {
    match FindIndex(c.items, id)
    case None => c
    case Some(i) =>
      if quantity <= 0 then RemoveFromCart(c, id)
      else if quantity <= c.items[i].stock then UpdateCart(c.items[i := c.items[i].(quantity := quantity)])
      else c
  }

  /** `clearCart()`. */
  function ClearCart(c: Cart): (r: Cart)
    ensures r.items == [] && r.count == 0 && r.total == 0
  {
    UpdateCart([])
  }

  /**
   * Adding a product already in the cart raises that line by one exactly when
   * its quantity is below the product's current stock; every other line and
   * every other field of that line stay as they were.
   */
  lemma AddExisting(c: Cart, p: Product)
    requires InCart(c.items, p.id)
    ensures var i := FindIndex(c.items, p.id).value;
      && |AddToCart(c, p).items| == |c.items|
      && (forall j :: 0 <= j < |c.items| && j != i ==> AddToCart(c, p).items[j] == c.items[j])
      && AddToCart(c, p).items[i] == c.items[i].(quantity := AddToCart(c, p).items[i].quantity)
      && AddToCart(c, p).items[i].quantity ==
           if c.items[i].quantity < p.stock then c.items[i].quantity + 1 else c.items[i].quantity
  {
  }

  /** Adding a product already at or above its stock leaves the lines unchanged. */
  lemma AddAtCeilingIsNoOp(c: Cart, p: Product)
    requires InCart(c.items, p.id)
    requires c.items[FindIndex(c.items, p.id).value].quantity >= p.stock
    ensures AddToCart(c, p).items == c.items
    ensures Consistent(c) ==> AddToCart(c, p) == c
  {
  }

  /**
   * Adding a product not in the cart appends exactly one line, at the end,
   * with quantity 1 and the product's stock recorded as its ceiling.
   */
  lemma AddNew(c: Cart, p: Product)
    requires !InCart(c.items, p.id)
    ensures |AddToCart(c, p).items| == |c.items| + 1
    ensures AddToCart(c, p).items[..|c.items|] == c.items
    ensures var last := AddToCart(c, p).items[|c.items|];
      last.id == p.id && last.quantity == 1 && last.stock == p.stock
      && last.name == p.name && last.price == p.price && last.base64Image == p.base64Image
  {
    assert (c.items + [NewItem(p)])[..|c.items|] == c.items;
  }

  /** A new line gets quantity 1 even when the product has no stock, so it sits above its own ceiling. */
  lemma NewLineIgnoresStock(c: Cart, p: Product)
    requires !InCart(c.items, p.id) && p.stock == 0
    ensures var last := AddToCart(c, p).items[|c.items|]; last.quantity > last.stock
  {
    AddNew(c, p);
  }

  /** `addToCart` never creates a second line for the same product. */
  lemma AddKeepsIdsUnique(c: Cart, p: Product)
    requires UniqueIds(c.items)
    ensures UniqueIds(AddToCart(c, p).items)
  {
    if !InCart(c.items, p.id) {
      var r := AddToCart(c, p).items;
      assert r == c.items + [NewItem(p)];
    }
  }

  /** With consistent totals, the count rises by one exactly when the cart changed. */
  lemma AddCount(c: Cart, p: Product)
    requires Consistent(c)
    ensures AddToCart(c, p).count == c.count + (if AddToCart(c, p).items == c.items then 0 else 1)
  {
    var items := c.items;
    match FindIndex(items, p.id)
    case Some(i) =>
      if items[i].quantity < p.stock {
        var upd := items[i := items[i].(quantity := items[i].quantity + 1)];
        SumUpdate(items, i, items[i].(quantity := items[i].quantity + 1), Quantity);
        assert upd[i] != items[i];
      }
    case None =>
      SumAppend(items, [NewItem(p)], Quantity);
      assert |items + [NewItem(p)]| != |items|;
  }

  /** Removal drops every line with the id and keeps every other line, each copy of it, in order. */
  lemma RemoveKeepsOthers(c: Cart, id: int)
    ensures IsSubsequence(RemoveFromCart(c, id).items, c.items)
    ensures forall item :: multiset(RemoveFromCart(c, id).items)[item] == if item.id != id then multiset(c.items)[item] else 0
    ensures forall item :: item in c.items && item.id != id ==> item in RemoveFromCart(c, id).items
    ensures forall item :: item in RemoveFromCart(c, id).items ==> item in c.items && item.id != id
  {
    FilterIsSubsequence(c.items, (item: CartItem) => item.id != id);
    FilterMultiplicity(c.items, (item: CartItem) => item.id != id);
  }

  /** Removing an id that is not in the cart leaves the lines as they were. */
  lemma RemoveAbsent(c: Cart, id: int)
    requires !InCart(c.items, id)
    ensures RemoveFromCart(c, id).items == c.items
    ensures Consistent(c) ==> RemoveFromCart(c, id) == c
  {
    FilterAll(c.items, (item: CartItem) => item.id != id);
  }

  /** Removing a product that was just added as a new line restores the previous lines. */
  lemma AddThenRemove(c: Cart, p: Product)
    requires !InCart(c.items, p.id)
    ensures RemoveFromCart(AddToCart(c, p), p.id).items == c.items
  {
    var keep := (item: CartItem) => item.id != p.id;
    FilterAll(c.items, keep);
    assert AddToCart(c, p).items == c.items + [NewItem(p)];
    FilterAppendOne(c.items, NewItem(p), keep);
  }

  lemma {:induction false} FilterAppendOne(xs: seq<CartItem>, x: CartItem, p: CartItem -> bool)
    ensures Filter(xs + [x], p) == Filter(xs, p) + (if p(x) then [x] else [])
    decreases |xs|
  {
    if |xs| == 0 {
      assert xs + [x] == [x];
      assert Filter([x], p) == (if p(x) then [x] else []) + Filter([], p);
    } else {
      assert (xs + [x])[1..] == xs[1..] + [x];
      FilterAppendOne(xs[1..], x, p);
    }
  }

  /** A non-positive quantity removes the product, exactly as `removeFromCart` does. */
  lemma UpdateToZeroRemoves(c: Cart, id: int, quantity: int)
    requires InCart(c.items, id) && quantity <= 0
    ensures UpdateQuantity(c, id, quantity) == RemoveFromCart(c, id)
  {
  }

  /** A quantity between 1 and the line's recorded stock is set exactly, on that line only. */
  lemma UpdateWithinStock(c: Cart, id: int, quantity: int)
    requires InCart(c.items, id)
    requires var i := FindIndex(c.items, id).value; 0 < quantity <= c.items[i].stock
    ensures var i := FindIndex(c.items, id).value;
      && |UpdateQuantity(c, id, quantity).items| == |c.items|
      && UpdateQuantity(c, id, quantity).items[i] == c.items[i].(quantity := quantity)
      && forall j :: 0 <= j < |c.items| && j != i ==> UpdateQuantity(c, id, quantity).items[j] == c.items[j]
  {
  }

  /** A positive quantity above the line's recorded stock is rejected: nothing changes. */
  lemma UpdateAboveStockIsNoOp(c: Cart, id: int, quantity: int)
    requires InCart(c.items, id)
    requires quantity > 0 && quantity > c.items[FindIndex(c.items, id).value].stock
    ensures UpdateQuantity(c, id, quantity) == c
  {
  }

  /** An id that is not in the cart changes nothing. */
  lemma UpdateUnknownIsNoOp(c: Cart, id: int, quantity: int)
    requires !InCart(c.items, id)
    ensures UpdateQuantity(c, id, quantity) == c
  {
  }

  /** `updateQuantity` keeps at most one line per product. */
  lemma UpdateKeepsIdsUnique(c: Cart, id: int, quantity: int)
    requires UniqueIds(c.items)
    ensures UniqueIds(UpdateQuantity(c, id, quantity).items)
  {
    if InCart(c.items, id) && quantity <= 0 {
      var r := RemoveFromCart(c, id).items;
      RemoveKeepsOthers(c, id);
      SubsequenceKeepsUniqueIds(r, c.items);
    }
  }

  /** A subsequence of lines with distinct ids has distinct ids. */
  lemma {:induction false} SubsequenceKeepsUniqueIds(a: seq<CartItem>, b: seq<CartItem>)
    requires IsSubsequence(a, b) && UniqueIds(b)
    ensures UniqueIds(a)
    decreases |b|
  {
    if |a| > 0 && |b| > 0 {
      if a[0] == b[0] {
        SubsequenceKeepsUniqueIds(a[1..], b[1..]);
        SubsequenceElements(a[1..], b[1..]);
        forall j | 0 < j < |a|
          ensures a[0].id != a[j].id
        {
          assert a[1..][j - 1] in b[1..];
        }
      } else {
        SubsequenceKeepsUniqueIds(a, b[1..]);
      }
    }
  }

  lemma {:induction false} SubsequenceElements<T>(a: seq<T>, b: seq<T>)
    requires IsSubsequence(a, b)
    ensures forall x :: x in a ==> x in b
    decreases |b|
  {
    if |a| > 0 && |b| > 0 {
      if a[0] == b[0] {
        SubsequenceElements(a[1..], b[1..]);
        assert a == [a[0]] + a[1..];
      } else {
        SubsequenceElements(a, b[1..]);
      }
    }
  }
}
