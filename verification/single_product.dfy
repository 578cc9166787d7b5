/**
 * The product detail page (`SingleProductPage`): the route id guard, the
 * choice of the main photo, the quantity stepper, the repeated add to the
 * cart, and the stock status and class.
 */
module SingleProductPage {
  import opened Wrappers
  import opened Text
  import opened Domain
  import CartService

  const InvalidId := "Invalid product ID"
  const NoImage := "assets/images/no-image.png"

  /** `+params['id']`: a number, or NaN when the parameter is not numeric. */
  datatype RouteNumber = NaN | Num(value: int)

  datatype Entry = Load(id: int) | Invalid(error: string)

  /** `ngOnInit()`: zero and NaN are falsy and rejected; any other number is loaded. */
  function Init(id: RouteNumber): (r: Entry)
    ensures (id == NaN || id == Num(0)) <==> r == Invalid(InvalidId)
    ensures id.Num? && id.value != 0 ==> r == Load(id.value)
  {
    match id
    case NaN => Invalid(InvalidId)
    case Num(n) => if n != 0 then Load(n) else Invalid(InvalidId)
  }

  datatype Photo = Photo(id: int, url: string, isMain: bool)

  /** The image shown and the id of its photo (null for the fallback). */
  datatype Selection = Selection(image: string, photoId: Option<int>)

  /** `photos.find(photo => photo.isMain)`. */
  function FindMain(photos: seq<Photo>): (r: Option<nat>)
    ensures r.Some? ==> r.value < |photos| && photos[r.value].isMain
    ensures r.Some? ==> forall j :: 0 <= j < r.value ==> !photos[j].isMain
    ensures r.None? ==> forall j :: 0 <= j < |photos| ==> !photos[j].isMain
    decreases |photos|
  {
    if |photos| == 0 then None
    else if photos[0].isMain then Some(0)
    else match FindMain(photos[1..])
      case None => None
      case Some(k) => Some(k + 1)
  }

  /**
   * `setMainImage()` for a loaded product whose `photos` may be missing: the
   * first main photo, else the first photo, else the fallback with no id.
   */
  function SetMainImage(photos: Option<seq<Photo>>): (r: Selection)
    ensures (photos.None? || photos.value == []) ==> r == Selection(NoImage, None)
    ensures photos.Some? && photos.value != [] ==>
      exists k :: 0 <= k < |photos.value| && r == Selection(photos.value[k].url, Some(photos.value[k].id))
        && (photos.value[k].isMain || (k == 0 && forall j :: 0 <= j < |photos.value| ==> !photos.value[j].isMain))
        && forall j :: 0 <= j < k ==> !photos.value[j].isMain
  {
    if photos.Some? && |photos.value| > 0 then
      var ps := photos.value;
      match FindMain(ps)
      case Some(k) => Selection(ps[k].url, Some(ps[k].id))
      case None => Selection(ps[0].url, Some(ps[0].id))
    else Selection(NoImage, None)
  }

  /** The choice of the main photo does not depend on the photos after the first main one. */
  lemma MainPhotoIgnoresLaterPhotos(ps: seq<Photo>, rest: seq<Photo>)
    requires FindMain(ps).Some?
    ensures SetMainImage(Some(ps + rest)) == SetMainImage(Some(ps))
  {
    var k := FindMain(ps).value;
    var all := ps + rest;
    assert all[k] == ps[k];
    assert forall j :: 0 <= j < |ps| ==> all[j] == ps[j];
  }

  /** `increaseQuantity()`: only with a product and while below its stock. */
  function Increase(quantity: int, product: Option<Product>): (r: int)
    ensures product.Some? && quantity < product.value.stock ==> r == quantity + 1
    ensures !(product.Some? && quantity < product.value.stock) ==> r == quantity
  {
    if product.Some? && quantity < product.value.stock then quantity + 1 else quantity
  }

  /** `decreaseQuantity()`: never below 1. */
  function Decrease(quantity: int): (r: int)
    ensures quantity > 1 ==> r == quantity - 1
    ensures quantity <= 1 ==> r == quantity
  {
    if quantity > 1 then quantity - 1 else quantity
  }

  /** A press of `+` or `-`. */
  datatype Press = Plus | Minus

  function Press1(quantity: int, product: Option<Product>, press: Press): int {
    match press
    case Plus => Increase(quantity, product)
    case Minus => Decrease(quantity)
  }

  function PressAll(quantity: int, product: Option<Product>, presses: seq<Press>): int
    decreases |presses|
  {
    if |presses| == 0 then quantity else PressAll(Press1(quantity, product, presses[0]), product, presses[1..])
  }

  /** From a quantity within `[1, stock]`, any presses keep it there. */
  lemma {:induction false} StepperStaysInRange(quantity: int, p: Product, presses: seq<Press>)
    requires 1 <= quantity <= p.stock
    ensures 1 <= PressAll(quantity, Some(p), presses) <= p.stock
    decreases |presses|
  {
    if |presses| > 0 {
      StepperStaysInRange(Press1(quantity, Some(p), presses[0]), p, presses[1..]);
    }
  }

  /** From the initial 1, for a product in stock, the stepper stays within `[1, stock]`. */
  lemma StepperFromOne(p: Product, presses: seq<Press>)
    requires p.stock >= 1
    ensures 1 <= PressAll(1, Some(p), presses) <= p.stock
  {
    StepperStaysInRange(1, p, presses);
  }

  /** The quantity of a line raised by `n` adds, each raising it while below the stock. */
  function Raised(quantity: int, n: nat, stock: int): (r: int)
    ensures quantity >= stock ==> r == quantity
    ensures quantity < stock ==> r == if quantity + n < stock then quantity + n else stock
  {
    if quantity >= stock then quantity else if quantity + n < stock then quantity + n else stock
  }

  lemma RaisedStep(quantity: int, n: nat, stock: int)
    ensures Raised(quantity, n + 1, stock) ==
      if Raised(quantity, n, stock) < stock then Raised(quantity, n, stock) + 1 else Raised(quantity, n, stock)
  {
  }

  /** The lines after `n` calls of the cart's `addToCart` with the same product. */
  function AddedLines(items: seq<CartService.CartItem>, p: Product, n: nat): seq<CartService.CartItem> {
    match CartService.FindIndex(items, p.id)
    case Some(i) => items[i := items[i].(quantity := Raised(items[i].quantity, n, p.stock))]
    case None =>
      if n == 0 then items
      else items + [CartService.NewItem(p).(quantity := Raised(1, n - 1, p.stock))]
  }

  /** Lines with the same ids in the same places find the same first index. */
  lemma FindIndexSameIds(a: seq<CartService.CartItem>, b: seq<CartService.CartItem>, id: int)
    requires |a| == |b| && forall j :: 0 <= j < |a| ==> a[j].id == b[j].id
    ensures CartService.FindIndex(a, id) == CartService.FindIndex(b, id)
  {
    var fa := CartService.FindIndex(a, id);
    if fa.Some? {
      assert b[fa.value].id == id;
    }
  }

  lemma FindIndexAppended(items: seq<CartService.CartItem>, x: CartService.CartItem)
    requires !CartService.InCart(items, x.id)
    ensures CartService.FindIndex(items + [x], x.id) == Some(|items|)
  {
    var all := items + [x];
    assert all[|items|].id == x.id;
    assert forall j :: 0 <= j < |items| ==> all[j] == items[j];
  }

  /** A line's quantity raised to `q`, as `addToCart` raises the line it finds. */
  lemma RaiseFound(c: CartService.Cart, p: Product, i: nat, q: int)
    requires CartService.FindIndex(c.items, p.id) == Some(i)
    requires q == (if c.items[i].quantity < p.stock then c.items[i].quantity + 1 else c.items[i].quantity)
    ensures CartService.AddToCart(c, p).items == c.items[i := c.items[i].(quantity := q)]
  {
    CartService.AddExisting(c, p);
    var r := CartService.AddToCart(c, p).items;
    assert forall j :: 0 <= j < |r| ==> r[j] == c.items[i := c.items[i].(quantity := q)][j];
  }

  lemma AddOneMoreExisting(items: seq<CartService.CartItem>, p: Product, n: nat)
    requires CartService.FindIndex(items, p.id).Some?
    ensures CartService.AddToCart(CartService.UpdateCart(AddedLines(items, p, n)), p).items == AddedLines(items, p, n + 1)
  {
    var i := CartService.FindIndex(items, p.id).value;
    var q := Raised(items[i].quantity, n, p.stock);
    var cur := items[i := items[i].(quantity := q)];
    assert AddedLines(items, p, n) == cur;
    FindIndexSameIds(cur, items, p.id);
    RaisedStep(items[i].quantity, n, p.stock);
    var next := if q < p.stock then q + 1 else q;
    assert next == Raised(items[i].quantity, n + 1, p.stock);
    assert AddedLines(items, p, n + 1) == items[i := items[i].(quantity := next)];
    var c := CartService.UpdateCart(cur);
    assert c.items == cur;
    RaiseFound(c, p, i, next);
    assert cur[i := cur[i].(quantity := next)] == items[i := items[i].(quantity := next)];
  }

  lemma AddOneMoreNewAgain(items: seq<CartService.CartItem>, p: Product, n: nat)
    requires CartService.FindIndex(items, p.id).None? && p.stock > 0 && n > 0
    ensures CartService.AddToCart(CartService.UpdateCart(AddedLines(items, p, n)), p).items == AddedLines(items, p, n + 1)
  {
    var q := Raised(1, n - 1, p.stock);
    var line := CartService.NewItem(p).(quantity := q);
    var next := if q < p.stock then q + 1 else q;
    RaisedStep(1, n - 1, p.stock);
    assert AddedLines(items, p, n) == items + [line];
    assert AddedLines(items, p, n + 1) == items + [line.(quantity := next)];
    var c := CartService.UpdateCart(items + [line]);
    assert c.items == items + [line];
    assert !CartService.InCart(items, line.id);
    FindIndexAppended(items, line);
    assert c.items[|items|] == line;
    RaiseFound(c, p, |items|, next);
    ReplaceLast(items, line, line.(quantity := next));
  }

  /** Replacing the appended line is appending the replacement. */
  lemma ReplaceLast(items: seq<CartService.CartItem>, line: CartService.CartItem, other: CartService.CartItem)
    ensures (items + [line])[|items| := other] == items + [other]
  {
  }

  lemma AddOneMoreNewFirst(items: seq<CartService.CartItem>, p: Product)
    requires CartService.FindIndex(items, p.id).None? && p.stock > 0
    ensures CartService.AddToCart(CartService.UpdateCart(AddedLines(items, p, 0)), p).items == AddedLines(items, p, 1)
  {
    assert AddedLines(items, p, 0) == items;
    assert AddedLines(items, p, 1) == items + [CartService.NewItem(p)];
    var c := CartService.UpdateCart(items);
    assert c.items == items;
    CartService.AddNew(c, p);
    var r := CartService.AddToCart(c, p).items;
    assert r == r[..|items|] + [r[|items|]];
  }

  /** One more add on top of `n` adds gives the lines of `n + 1` adds. */
  lemma AddOneMore(items: seq<CartService.CartItem>, p: Product, n: nat)
    requires p.stock > 0
    ensures CartService.AddToCart(CartService.UpdateCart(AddedLines(items, p, n)), p).items == AddedLines(items, p, n + 1)
  {
    if CartService.FindIndex(items, p.id).Some? {
      AddOneMoreExisting(items, p, n);
    } else if n > 0 {
      AddOneMoreNewAgain(items, p, n);
    } else {
      AddOneMoreNewFirst(items, p);
    }
  }

  /**
   * `addToCart()`: with stock it calls the cart's `addToCart` `quantity`
   * times; the product's line ends at its prior quantity raised by that many
   * steps, each one only while below the stock.
   */
  method AddToCart(cart: CartService.Cart, p: Option<Product>, quantity: int) returns (r: CartService.Cart)
    ensures p.None? || p.value.stock <= 0 || quantity <= 0 ==> r == cart
    ensures p.Some? && p.value.stock > 0 && quantity > 0 ==>
      r.items == AddedLines(cart.items, p.value, quantity) && CartService.Consistent(r)
  {
    r := cart;
    if p.Some? && p.value.stock > 0 {
      var product := p.value;
      var i := 0;
      assert AddedLines(cart.items, product, 0) == cart.items;
      while i < quantity
        invariant 0 <= i <= if quantity > 0 then quantity else 0
        invariant r.items == AddedLines(cart.items, product, i)
        invariant i == 0 ==> r == cart
        invariant i > 0 ==> CartService.Consistent(r)
      {
        assert r.items == CartService.UpdateCart(r.items).items;
        AddOneMore(cart.items, product, i);
        r := CartService.AddToCart(r, product);
        i := i + 1;
      }
    }
  }

  /** For a product not yet in the cart, `n > 0` adds leave one new line holding `min(n, stock)`. */
  lemma AddedToEmptyLine(items: seq<CartService.CartItem>, p: Product, n: nat)
    requires !CartService.InCart(items, p.id) && p.stock > 0 && n > 0
    ensures var r := AddedLines(items, p, n);
      |r| == |items| + 1 && r[..|items|] == items
      && r[|items|].quantity == (if n < p.stock then n else p.stock)
  {
    assert (items + [CartService.NewItem(p).(quantity := Raised(1, n - 1, p.stock))])[..|items|] == items;
  }

  /** For a line already in the cart at or below the stock, `n` adds leave it at `min(prior + n, stock)`. */
  lemma AddedToExistingLine(items: seq<CartService.CartItem>, p: Product, n: nat)
    requires CartService.InCart(items, p.id)
    requires items[CartService.FindIndex(items, p.id).value].quantity <= p.stock
    ensures var i := CartService.FindIndex(items, p.id).value;
      var prior := items[i].quantity;
      AddedLines(items, p, n)[i].quantity == (if prior + n < p.stock then prior + n else p.stock)
  {
  }

  /** `getStockStatus()`. */
  function StockStatus(product: Option<Product>): (r: string)
    ensures product.None? ==> r == ""
    ensures product.Some? && product.value.stock == 0 ==> r == "Out of Stock"
    ensures product.Some? && product.value.stock != 0 && product.value.stock < 10 ==>
      r == "Only " + IntToString(product.value.stock) + " left"
    ensures product.Some? && product.value.stock >= 10 ==> r == "In Stock"
  {
    match product
    case None => ""
    case Some(p) =>
      if p.stock == 0 then "Out of Stock"
      else if p.stock < 10 then "Only " + IntToString(p.stock) + " left"
      else "In Stock"
  }

  /** `getStockClass()`. */
  function StockClass(product: Option<Product>): (r: string)
    ensures product.None? ==> r == ""
    ensures product.Some? && product.value.stock == 0 ==> r == "out-of-stock"
    ensures product.Some? && product.value.stock != 0 && product.value.stock < 10 ==> r == "low-stock"
    ensures product.Some? && product.value.stock >= 10 ==> r == "in-stock"
  {
    match product
    case None => ""
    case Some(p) =>
      if p.stock == 0 then "out-of-stock" else if p.stock < 10 then "low-stock" else "in-stock"
  }

  /** Status and class name the same bucket: out, low (`Only N left`) or in stock. */
  lemma StatusAgreesWithClass(product: Option<Product>)
    ensures StockStatus(product) == "Out of Stock" <==> StockClass(product) == "out-of-stock"
    ensures StockStatus(product) == "In Stock" <==> StockClass(product) == "in-stock"
    ensures StartsWith(StockStatus(product), "Only ") <==> StockClass(product) == "low-stock"
  {
    if product.Some? && product.value.stock != 0 && product.value.stock < 10 {
      var status := "Only " + IntToString(product.value.stock) + " left";
      assert status == "Only " + (IntToString(product.value.stock) + " left");
      StartsWithAppend("Only ", IntToString(product.value.stock) + " left");
      assert status[1] == 'n' && status[0] == 'O';
    } else {
      assert "Out of Stock"[1] != "Only "[1];
      assert "In Stock"[0] != "Only "[0];
    }
  }
}
