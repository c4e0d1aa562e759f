/**
 The order endpoint: before the checkout widget opens, the server checks the
 request and the workshop and asks the payment gateway for an order of the
 right amount in paise.  It only reads the store: the result type carries no
 new store, so no seat is held and no registration written here.

 The gateway SDK's order creation is the opaque `gateway`, from the amount to
 the new order's id (`None` when the SDK call fails).
 */
module CreateOrder {
  import opened Js
  import opened Schema
  import opened Auth
  import Money
  import VerifyPayment

  /** The JSON body; either field may be missing. */
  datatype Request = Request(workshopId: Option<WorkshopId>, quantity: Option<int>)

  datatype Response =
    | Order(orderId: string, amount: int, currency: string)
    | Rejected(status: int, error: string)

  /** `!workshopId || !quantity || quantity < 1`. */
  predicate Malformed(req: Request) {
    !Truthy(req.workshopId) || req.quantity.None? || req.quantity.value < 1
  }

  function Handle(db: Db, session: Option<SessionUser>, req: Request, gateway: int -> Option<string>): (r: Response)
    // each rejection holds exactly when the checks before it pass and its own fails
    ensures r == Rejected(401, "Not authenticated") <==> !Authenticated(session)
    ensures r == Rejected(400, "Invalid request data") <==> Authenticated(session) && Malformed(req)
    ensures r == Rejected(404, "Workshop not found") <==>
              Authenticated(session) && !Malformed(req) && req.workshopId.value !in db.workshops
    ensures r == Rejected(400, "Not enough seats available") <==>
              && Authenticated(session) && !Malformed(req)
              && req.workshopId.value in db.workshops
              && db.workshops[req.workshopId.value].availableSeats < req.quantity.value
    ensures r == Rejected(400, "Registration is closed") <==>
              && Authenticated(session) && !Malformed(req)
              && req.workshopId.value in db.workshops
              && db.workshops[req.workshopId.value].availableSeats >= req.quantity.value
              && !db.workshops[req.workshopId.value].isOpen
    ensures r == Rejected(500, "Failed to create order") <==>
              && Authenticated(session) && !Malformed(req)
              && req.workshopId.value in db.workshops
              && db.workshops[req.workshopId.value].availableSeats >= req.quantity.value
              && db.workshops[req.workshopId.value].isOpen
              && gateway(Money.Paise(db.workshops[req.workshopId.value].price,
                                     db.workshops[req.workshopId.value].discount, req.quantity.value)).None?
    // an order is created only for an open workshop with enough seats, for the discounted amount in paise
    ensures r.Order? <==>
              && Authenticated(session) && !Malformed(req)
              && req.workshopId.value in db.workshops
              && db.workshops[req.workshopId.value].availableSeats >= req.quantity.value
              && db.workshops[req.workshopId.value].isOpen
              && gateway(Money.Paise(db.workshops[req.workshopId.value].price,
                                     db.workshops[req.workshopId.value].discount, req.quantity.value)).Some?
    ensures r.Order? ==>
              && var w := db.workshops[req.workshopId.value];
              && r.amount == Money.Paise(w.price, w.discount, req.quantity.value)
              && r.currency == "INR"
              && req.quantity.value >= 1
  {
    if !Authenticated(session) then Rejected(401, "Not authenticated")
    else if Malformed(req) then Rejected(400, "Invalid request data")
    else if req.workshopId.value !in db.workshops then Rejected(404, "Workshop not found")
    else
      var w := db.workshops[req.workshopId.value];
      var q := req.quantity.value;
      if w.availableSeats < q then Rejected(400, "Not enough seats available")
      else if !w.isOpen then Rejected(400, "Registration is closed")
      else
        var amount := Money.Paise(w.price, w.discount, q);
        match gateway(amount)
        case None => Rejected(500, "Failed to create order")
        case Some(id) => Order(id, amount, "INR")
  }

  /** The seat check runs before the open check: a full, closed workshop reports the seats. */
  lemma SeatsCheckedBeforeOpen(db: Db, session: Option<SessionUser>, req: Request, gateway: int -> Option<string>)
    requires Authenticated(session) && !Malformed(req)
    requires req.workshopId.value in db.workshops
    requires db.workshops[req.workshopId.value].availableSeats < req.quantity.value
    ensures Handle(db, session, req, gateway) == Rejected(400, "Not enough seats available")
  {
  }

  /** A workshop with room that is closed reports "Registration is closed". */
  lemma ClosedRejected(db: Db, session: Option<SessionUser>, req: Request, gateway: int -> Option<string>)
    requires Authenticated(session) && !Malformed(req)
    requires req.workshopId.value in db.workshops
    requires db.workshops[req.workshopId.value].availableSeats >= req.quantity.value
    requires !db.workshops[req.workshopId.value].isOpen
    ensures Handle(db, session, req, gateway) == Rejected(400, "Registration is closed")
  {
  }

  /** With whole-rupee prices and whole-percent discounts the order amount is exact. */
  lemma {:induction false} AmountIsExactForWholeNumbers(
    db: Db, session: Option<SessionUser>, req: Request, gateway: int -> Option<string>, price: int, discount: int)
    requires Handle(db, session, req, gateway).Order?
    requires db.workshops[req.workshopId.value].price == price as real
    requires db.workshops[req.workshopId.value].discount == discount as real
    ensures Handle(db, session, req, gateway).amount == price * (100 - discount) * req.quantity.value
  {
    Money.PaiseExact(price, discount, req.quantity.value);
  }

  /**
   The order asks for exactly what the verification step later records:
   `amount` is `pricePaid` in paise, rounded as `Math.round` does, for every
   price and discount the store holds.
   */
  lemma OrderMatchesRecordedPrice(
    db: Db, session: Option<SessionUser>, gateway: int -> Option<string>,
    vreq: VerifyPayment.Request, env: VerifyPayment.Env)
    requires var req := Request(Some(vreq.workshopId), Some(vreq.quantity));
             Handle(db, session, req, gateway).Order?
    requires VerifyPayment.HandleChecked(db, session, vreq, env).0.Verified?
    ensures var order := Handle(db, session, Request(Some(vreq.workshopId), Some(vreq.quantity)), gateway);
            var reg := VerifyPayment.HandleChecked(db, session, vreq, env).0.registration;
            && reg.pricePaid.Some?
            && order.amount == Round(reg.pricePaid.value * 100.0)
            && order.amount as real - 0.5 <= reg.pricePaid.value * 100.0 < order.amount as real + 0.5
  {
  }

  /** With whole-rupee prices and whole-percent discounts the two agree without rounding. */
  lemma {:induction false} OrderExactForWholeNumbers(
    db: Db, session: Option<SessionUser>, gateway: int -> Option<string>,
    vreq: VerifyPayment.Request, env: VerifyPayment.Env, price: int, discount: int)
    requires var req := Request(Some(vreq.workshopId), Some(vreq.quantity));
             Handle(db, session, req, gateway).Order?
    requires VerifyPayment.HandleChecked(db, session, vreq, env).0.Verified?
    requires db.workshops[vreq.workshopId].price == price as real
    requires db.workshops[vreq.workshopId].discount == discount as real
    ensures var order := Handle(db, session, Request(Some(vreq.workshopId), Some(vreq.quantity)), gateway);
            var reg := VerifyPayment.HandleChecked(db, session, vreq, env).0.registration;
            reg.pricePaid.Some? && order.amount as real == reg.pricePaid.value * 100.0
  {
    var req := Request(Some(vreq.workshopId), Some(vreq.quantity));
    var w := db.workshops[vreq.workshopId];
    var reg := VerifyPayment.HandleChecked(db, session, vreq, env).0.registration;
    assert reg.pricePaid.value == Money.FinalPrice(w.price, w.discount) * vreq.quantity as real;
    AmountIsExactForWholeNumbers(db, session, req, gateway, price, discount);
    var n := price * (100 - discount) * vreq.quantity;
    assert reg.pricePaid.value * 100.0 == n as real by {
      var p, d, q := price as real, discount as real, vreq.quantity as real;
      calc {
        reg.pricePaid.value * 100.0;
        (p * (100.0 - d) / 100.0) * q * 100.0;
        { assert (p * (100.0 - d) / 100.0) * 100.0 == p * (100.0 - d); }
        p * (100.0 - d) * q;
        { assert (100 - discount) as real == 100.0 - d;
          assert (price * (100 - discount)) as real == p * (100.0 - d); }
        n as real;
      }
    }
  }
}
