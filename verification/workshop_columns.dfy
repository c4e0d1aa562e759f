/**
 The admin's workshop table: the price cell, the seat badge, and the two
 row dialogs (notify and cancel) with their close guard and wording.
 */
module WorkshopColumns {
  import opened Schema
  import opened Badge
  import Money

  /** The price cell: a discounted price with the list price struck through, or just the list price. */
  datatype PriceCell = Discounted(final: real, struck: real) | Plain(price: real)

  function PriceCellOf(price: real, discount: real): (c: PriceCell)
    ensures c.Discounted? <==> discount > 0.0
    ensures c.Discounted? ==> c.final == Money.FinalPrice(price, discount) && c.struck == price
    ensures c.Plain? ==> c.price == price
  {
    if discount > 0.0 then Discounted(Money.FinalPrice(price, discount), price) else Plain(price)
  }

  /** A struck-through price is always above the price charged, for a positive price and a discount up to 100%. */
  lemma StruckPriceIsHigher(price: real, discount: real)
    requires price > 0.0 && 0.0 < discount <= 100.0
    ensures var c := PriceCellOf(price, discount);
            c.Discounted? && c.final < c.struck
  {
    assert price * (100.0 - discount) < price * 100.0;
  }

  /**
   The seat badge.  The percentage `available / total * 100` is compared
   with 50 and 20; with no seats at all it is +Infinity (some available) or
   NaN / -Infinity (none), and every comparison with NaN is false.
   */
  function SeatBadge(available: int, total: int): (v: Variant)
    ensures v != Outline
    ensures total == 0 ==> (v == Default <==> available > 0)
    ensures total == 0 ==> (v == Destructive <==> available <= 0)
  {
    if total == 0 then (if available > 0 then Default else Destructive)
    else
      var percentage := available as real / total as real * 100.0;
      if percentage > 50.0 then Default
      else if percentage > 20.0 then Secondary
      else Destructive
  }

  /** For a workshop with seats the thresholds are ratios of whole numbers. */
  lemma {:induction false} SeatBadgeThresholds(available: int, total: int)
    requires total > 0
    ensures SeatBadge(available, total) == Default <==> 2 * available > total
    ensures SeatBadge(available, total) == Secondary <==> 5 * available > total >= 2 * available
    ensures SeatBadge(available, total) == Destructive <==> total >= 5 * available
  {
    var p := available as real / total as real * 100.0;
    assert p * total as real == available as real * 100.0;
    PercentageAbove(p, total as real, available as real, 50.0);
    PercentageAbove(p, total as real, available as real, 20.0);
  }

  /** `p > bound` for `p * total == available * 100` with a positive total. */
  lemma PercentageAbove(p: real, total: real, available: real, bound: real)
    requires total > 0.0 && p * total == available * 100.0
    ensures p > bound <==> available * 100.0 > bound * total
  {
    if p > bound {
      assert p * total > bound * total;
    } else {
      assert p * total <= bound * total;
    }
  }

  /** A workshop nobody has booked yet shows the default badge; a sold-out one the destructive badge. */
  lemma FullAndSoldOut(w: Workshop)
    requires w.totalSeats > 0
    ensures SeatBadge(w.totalSeats, w.totalSeats) == Default
    ensures SeatBadge(0, w.totalSeats) == Destructive
  {
    SeatBadgeThresholds(w.totalSeats, w.totalSeats);
    SeatBadgeThresholds(0, w.totalSeats);
  }

  /** A row dialog: open or not, busy notifying/cancelling, and whether a result is on screen. */
  datatype RowDialog = RowDialog(isOpen: bool, busy: bool, hasResult: bool)

  /** `handleClose`: only an idle dialog without a result closes. */
  function HandleClose(d: RowDialog): (d': RowDialog)
    ensures !d'.isOpen <==> !d.isOpen || (!d.busy && !d.hasResult)
    ensures d.busy || d.hasResult ==> d' == d
    ensures d'.busy == d.busy
    ensures !d.busy && !d.hasResult ==> d' == d.(isOpen := false)
  {
    if !d.busy && !d.hasResult then d.(isOpen := false, hasResult := false) else d
  }

  /** Closing twice is closing once, and the final close after it changes nothing more. */
  lemma HandleCloseIdempotent(d: RowDialog)
    ensures HandleClose(HandleClose(d)) == HandleClose(d)
    ensures HandleFinalClose(HandleFinalClose(d)) == HandleFinalClose(d)
  {
  }

  /**
   `handleFinalClose`: closing after a result is always possible.  The result
   stays on screen while the dialog fades out and is dropped by a timer.
   */
  function HandleFinalClose(d: RowDialog): (d': RowDialog)
    ensures !d'.isOpen
    ensures d'.busy == d.busy && d'.hasResult == d.hasResult
  {
    d.(isOpen := false)
  }

  /** The 300 ms timer `handleFinalClose` starts: it only drops the result. */
  function ResultTimerFires(d: RowDialog): (d': RowDialog)
    ensures !d'.hasResult
    ensures d'.isOpen == d.isOpen && d'.busy == d.busy
  {
    d.(hasResult := false)
  }

  /** Once the timer has fired, an idle dialog is closed with nothing left to show, and `handleClose` agrees. */
  lemma FinalCloseSettles(d: RowDialog)
    requires !d.busy
    ensures var s := ResultTimerFires(HandleFinalClose(d));
            !s.isOpen && !s.hasResult && HandleClose(s) == s
  {
  }

  /** "user" or "users" in the cancel warning. */
  function UserNoun(count: int): (s: string)
    ensures s == "user" <==> count == 1
    ensures s == "users" <==> count != 1
  {
    "user" + (if count != 1 then "s" else "")
  }

  /** Two counts get the same noun exactly when both or neither are 1. */
  lemma UserNounSingularOnlyForOne(a: int, b: int)
    ensures UserNoun(a) == UserNoun(b) <==> (a == 1 <==> b == 1)
    ensures UserNoun(a)[..4] == "user"
  {
  }
}
