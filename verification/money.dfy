/**
 Prices.  A workshop has a list `price` and a `discount` percentage; every
 part of the application computes the price actually charged for one seat as
 `price - price * discount / 100`, and the payment gateway is asked for that
 amount times the quantity, in paise (hundredths of a rupee), rounded with
 `Math.round`.  Money is modelled as exact `real`s.
 */
module Money {
  import opened Js

  /** The discounted price of one seat. */
  function FinalPrice(price: real, discount: real): (r: real)
    ensures r == price * (100.0 - discount) / 100.0
    ensures discount == 0.0 ==> r == price
    ensures discount == 100.0 ==> r == 0.0
  {
    price - (price * discount) / 100.0
  }

  /** The amount sent to the gateway, in paise. */
  function Paise(price: real, discount: real, quantity: int): (r: int)
    ensures r as real - 0.5 <= FinalPrice(price, discount) * quantity as real * 100.0 < r as real + 0.5
  {
    Round(FinalPrice(price, discount) * quantity as real * 100.0)
  }

  /** A discount in [0, 100] on a non-negative price never raises it nor makes it negative. */
  lemma FinalPriceBounds(price: real, discount: real)
    requires price >= 0.0 && 0.0 <= discount <= 100.0
    ensures 0.0 <= FinalPrice(price, discount) <= price
  {
    assert price * discount <= price * 100.0;
    assert price * discount >= 0.0;
  }

  /**
   For whole-rupee prices and whole-percent discounts the rounding is exact:
   the paise amount is `price * (100 - discount) * quantity`.
   */
  lemma PaiseExact(price: int, discount: int, quantity: int)
    ensures Paise(price as real, discount as real, quantity) == price * (100 - discount) * quantity
  {
    var p, d, q := price as real, discount as real, quantity as real;
    var n := price * (100 - discount) * quantity;
    calc {
      FinalPrice(p, d) * q * 100.0;
      (p * (100.0 - d) / 100.0) * q * 100.0;
      { assert (p * (100.0 - d) / 100.0) * 100.0 == p * (100.0 - d); }
      p * (100.0 - d) * q;
      { assert (100 - discount) as real == 100.0 - d;
        assert (price * (100 - discount)) as real == p * (100.0 - d); }
      n as real;
    }
    RoundIntegral(n);
  }
}
