/**
 The visitor's workshop cart: a map from workshop id to a cart line.  Adding
 a workshop (re)starts its line at one seat, the quantity is clamped into
 `[1, maxSeats]`, and the totals are sums over the lines in no particular
 order.
 */
module Cart {
  import opened Schema
  import opened MapSum
  import Money

  datatype CartItem = CartItem(
    workshopId: WorkshopId,
    title: string,
    price: real,
    discount: real,
    quantity: int,
    maxSeats: int)

  /** What `addToCart` receives: a line without its quantity. */
  datatype NewItem = NewItem(workshopId: WorkshopId, title: string, price: real, discount: real, maxSeats: int)

  type Cart = map<WorkshopId, CartItem>

  /** Every line of a cart built by these operations asks for at least one seat. */
  predicate QuantitiesPositive(cart: Cart) {
    forall id :: id in cart ==> cart[id].quantity >= 1
  }

  /** Adds the workshop with one seat, replacing any line it already had. */
  function AddToCart(cart: Cart, item: NewItem): (cart': Cart)
    ensures cart'.Keys == cart.Keys + {item.workshopId}
    ensures cart'[item.workshopId] ==
              CartItem(item.workshopId, item.title, item.price, item.discount, 1, item.maxSeats)
    ensures forall id :: id in cart && id != item.workshopId ==> cart'[id] == cart[id]
  {
    cart[item.workshopId := CartItem(item.workshopId, item.title, item.price, item.discount, 1, item.maxSeats)]
  }

  /** Drops the workshop's line, if any. */
  function RemoveFromCart(cart: Cart, id: WorkshopId): (cart': Cart)
    ensures cart'.Keys == cart.Keys - {id}
    ensures forall k :: k in cart' ==> cart'[k] == cart[k]
    ensures id !in cart ==> cart' == cart
  {
    cart - {id}
  }

  /** `Math.max(1, Math.min(q, maxSeats))`. */
  function Clamp(q: int, maxSeats: int): (r: int)
    ensures r >= 1
    ensures maxSeats >= 1 ==> r <= maxSeats
    ensures 1 <= q <= maxSeats ==> r == q
    ensures q < 1 ==> r == 1
    ensures q > maxSeats >= 1 ==> r == maxSeats
  {
    var m := if q <= maxSeats then q else maxSeats;
    if m >= 1 then m else 1
  }

  /** Sets the workshop's quantity, clamped; an unknown workshop leaves the cart alone. */
  function UpdateQuantity(cart: Cart, id: WorkshopId, q: int): (cart': Cart)
    ensures id !in cart ==> cart' == cart
    ensures id in cart ==>
              && cart'.Keys == cart.Keys
              && cart'[id] == cart[id].(quantity := Clamp(q, cart[id].maxSeats))
              && forall k :: k in cart && k != id ==> cart'[k] == cart[k]
  {
    if id !in cart then cart
    else cart[id := cart[id].(quantity := Clamp(q, cart[id].maxSeats))]
  }

  /** `clearCart`: every line goes. */
  function ClearCart(): (cart': Cart)
    ensures |cart'| == 0
    ensures forall id :: id !in cart'
  {
    map[]
  }

  /** Every operation keeps the quantities positive. */
  lemma OperationsKeepQuantitiesPositive(cart: Cart, item: NewItem, id: WorkshopId, q: int)
    requires QuantitiesPositive(cart)
    ensures QuantitiesPositive(AddToCart(cart, item))
    ensures QuantitiesPositive(RemoveFromCart(cart, id))
    ensures QuantitiesPositive(UpdateQuantity(cart, id, q))
    ensures QuantitiesPositive(ClearCart())
  {
  }

  /** Removing twice is removing once. */
  lemma RemoveIdempotent(cart: Cart, id: WorkshopId)
    ensures RemoveFromCart(RemoveFromCart(cart, id), id) == RemoveFromCart(cart, id)
  {
  }

  /** Setting the same quantity twice is setting it once. */
  lemma UpdateIdempotent(cart: Cart, id: WorkshopId, q: int)
    ensures UpdateQuantity(UpdateQuantity(cart, id, q), id, q) == UpdateQuantity(cart, id, q)
  {
  }

  /** Adding after removing gives the same cart as adding: the line is always restarted. */
  lemma AddReplacesLine(cart: Cart, item: NewItem)
    ensures AddToCart(RemoveFromCart(cart, item.workshopId), item) == AddToCart(cart, item)
  {
  }

  function Seats(item: CartItem): real {
    item.quantity as real
  }

  /** A line's price: the discounted unit price times the quantity. */
  function LineTotal(item: CartItem): real {
    Money.FinalPrice(item.price, item.discount) * item.quantity as real
  }

  /** `getTotalSeats`: the sum of the quantities. */
  method TotalSeats(cart: Cart) returns (total: int)
    ensures total as real == Sum(cart, Seats)
  {
    var rest := cart;
    total := 0;
    while rest != map[]
      invariant total as real + Sum(rest, Seats) == Sum(cart, Seats)
      decreases |rest|
    {
      var k :| k in rest;
      SumRemove(rest, k, Seats);
      total := total + rest[k].quantity;
      assert (rest - {k}).Keys == rest.Keys - {k};
      rest := rest - {k};
    }
  }

  /** `getTotalPrice`: the sum of the line totals. */
  method TotalPrice(cart: Cart) returns (total: real)
    ensures total == Sum(cart, LineTotal)
  {
    var rest := cart;
    total := 0.0;
    while rest != map[]
      invariant total + Sum(rest, LineTotal) == Sum(cart, LineTotal)
      decreases |rest|
    {
      var k :| k in rest;
      SumRemove(rest, k, LineTotal);
      total := total + LineTotal(rest[k]);
      assert (rest - {k}).Keys == rest.Keys - {k};
      rest := rest - {k};
    }
  }

  /** With positive quantities there are at least as many seats as lines. */
  lemma SeatsAtLeastLines(cart: Cart)
    requires QuantitiesPositive(cart)
    ensures Sum(cart, Seats) >= |cart| as real
  {
    SumAtLeastCount(cart, Seats);
  }

  /** An emptied cart totals nothing. */
  lemma ClearedTotalsZero()
    ensures Sum(ClearCart(), Seats) == 0.0 && Sum(ClearCart(), LineTotal) == 0.0
  {
  }

  /** Adding a workshop adds one seat and its discounted unit price, after dropping its old line. */
  lemma AddToCartTotals(cart: Cart, item: NewItem)
    ensures Sum(AddToCart(cart, item), Seats) == Sum(RemoveFromCart(cart, item.workshopId), Seats) + 1.0
    ensures Sum(AddToCart(cart, item), LineTotal) ==
              Sum(RemoveFromCart(cart, item.workshopId), LineTotal) + Money.FinalPrice(item.price, item.discount)
  {
    var line := CartItem(item.workshopId, item.title, item.price, item.discount, 1, item.maxSeats);
    SumUpdate(cart, item.workshopId, line, Seats);
    SumUpdate(cart, item.workshopId, line, LineTotal);
  }

  /** Removing a line takes exactly its seats and its price out of the totals. */
  lemma RemoveFromCartTotals(cart: Cart, id: WorkshopId)
    requires id in cart
    ensures Sum(cart, Seats) == Sum(RemoveFromCart(cart, id), Seats) + cart[id].quantity as real
    ensures Sum(cart, LineTotal) == Sum(RemoveFromCart(cart, id), LineTotal) + LineTotal(cart[id])
  {
    SumRemove(cart, id, Seats);
    SumRemove(cart, id, LineTotal);
  }
}
