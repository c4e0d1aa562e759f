/**
 How the admin pages show a registration's payment: the status badge (shared
 by the registrations table and the user detail page), the amount, and the
 "N/A" fallbacks for missing text.
 */
module PaymentBadge {
  import opened Js
  import opened Schema
  import opened Badge
  import RegistrationActions

  datatype Label = Paid | Pending | Failed | Unpaid

  /** The badge text: "Paid" only for paid and completed, then by status, else "Unpaid". */
  function LabelOf(paid: bool, status: Option<string>): (l: Label)
    ensures l == Paid <==> IsPaid(paid, status)
    ensures l == Pending <==> !IsPaid(paid, status) && status == Some("pending")
    ensures l == Failed <==> !IsPaid(paid, status) && status == Some("failed")
    ensures l == Unpaid <==> !IsPaid(paid, status) && status != Some("pending") && status != Some("failed")
  {
    if paid && status == Some("completed") then Paid
    else if status == Some("pending") then Pending
    else if status == Some("failed") then Failed
    else Unpaid
  }

  /** The badge variant, decided by the same chain of tests as the text. */
  function VariantOf(paid: bool, status: Option<string>): Variant {
    if paid && status == Some("completed") then Default
    else if status == Some("pending") then Secondary
    else if status == Some("failed") then Destructive
    else Outline
  }

  /** Each label has its own variant. */
  function LabelVariant(l: Label): Variant {
    match l
    case Paid => Default
    case Pending => Secondary
    case Failed => Destructive
    case Unpaid => Outline
  }

  /** Variant and text always agree, and the variant alone tells the label. */
  lemma VariantMatchesLabel(paid: bool, status: Option<string>)
    ensures VariantOf(paid, status) == LabelVariant(LabelOf(paid, status))
  {
  }

  lemma LabelVariantInjective(a: Label, b: Label)
    requires LabelVariant(a) == LabelVariant(b)
    ensures a == b
  {
  }

  /** A completed payment whose `paid` flag is off, and a paid one still pending, are not "Paid". */
  lemma CompletedButUnpaid()
    ensures LabelOf(false, Some("completed")) == Unpaid
    ensures LabelOf(true, Some("pending")) == Pending
  {
  }

  /** The status badge for a stored registration: "Paid" exactly for the settled ones. */
  lemma BadgeMatchesSettled(r: Registration)
    ensures LabelOf(r.paid, r.paymentStatus) == Paid <==> Settled(r)
  {
  }

  /** The amount cell: `None` is "N/A", shown for a null or zero price. */
  function AmountCell(pricePaid: Option<real>): (a: Option<real>)
    ensures a.None? <==> pricePaid.None? || pricePaid.value == 0.0
    ensures a.Some? ==> a.value == pricePaid.value
  {
    if pricePaid.Some? && pricePaid.value != 0.0 then pricePaid else None
  }

  /** The user page's amount: the price paid when non-zero, otherwise the workshop's list price. */
  function UserPageAmount(pricePaid: Option<real>, listPrice: real): (a: real)
    ensures pricePaid.Some? && pricePaid.value != 0.0 ==> a == pricePaid.value
    ensures pricePaid.None? || pricePaid.value == 0.0 ==> a == listPrice
  {
    if pricePaid.Some? && pricePaid.value != 0.0 then pricePaid.value else listPrice
  }

  /** Where the table shows a figure the user page shows the same; where it shows "N/A" the page falls back to the list price. */
  lemma AmountsAgree(pricePaid: Option<real>, listPrice: real)
    ensures AmountCell(pricePaid).Some? ==> UserPageAmount(pricePaid, listPrice) == AmountCell(pricePaid).value
    ensures AmountCell(pricePaid).None? ==> UserPageAmount(pricePaid, listPrice) == listPrice
  {
  }

  /** Text that falls back to "N/A" when null or empty (names, phone numbers, payment methods). */
  function TextOrNA(s: Option<string>): (t: string)
    ensures Truthy(s) ==> t == s.value
    ensures !Truthy(s) ==> t == "N/A"
  {
    OrElse(s, "N/A")
  }

  /** The fallback is never empty, and applying it twice is applying it once. */
  lemma TextOrNAIdempotent(s: Option<string>)
    ensures TextOrNA(s) != ""
    ensures TextOrNA(Some(TextOrNA(s))) == TextOrNA(s)
  {
  }

  /** The registrations of one user. */
  function RegistrationsOfUser(regs: map<RegistrationId, Registration>, uid: UserId): (ids: set<RegistrationId>)
    ensures forall id :: id in ids <==> id in regs && regs[id].userId == uid
  {
    set id | id in regs && regs[id].userId == uid
  }

  /** The user page's "<n> Total" badge and its empty state. */
  datatype UserRegistrationsCard = UserRegistrationsCard(total: nat, showsEmptyState: bool)

  function CardOf(regs: map<RegistrationId, Registration>, uid: UserId): (c: UserRegistrationsCard)
    ensures c.total == |RegistrationsOfUser(regs, uid)|
    ensures c.showsEmptyState <==> forall id :: id in regs ==> regs[id].userId != uid
  {
    var mine := RegistrationsOfUser(regs, uid);
    if mine == {} then UserRegistrationsCard(0, true)
    else UserRegistrationsCard(|mine|, false)
  }

  /** The empty state shows exactly when the badge counts 0. */
  lemma EmptyStateIffZero(regs: map<RegistrationId, Registration>, uid: UserId)
    ensures CardOf(regs, uid).showsEmptyState <==> CardOf(regs, uid).total == 0
  {
    var mine := RegistrationsOfUser(regs, uid);
    if mine != {} {
      var x :| x in mine;
    }
  }

  /** Changing a registration's payment fields leaves every user's card as it was. */
  lemma CardUnaffectedByPaymentUpdate(db: Db, id: RegistrationId, patch: RegistrationActions.Patch, uid: UserId)
    ensures CardOf(RegistrationActions.UpdatePaymentStatus(db, id, patch).1.registrations, uid) ==
            CardOf(db.registrations, uid)
  {
    var db' := RegistrationActions.UpdatePaymentStatus(db, id, patch).1;
    assert RegistrationsOfUser(db'.registrations, uid) == RegistrationsOfUser(db.registrations, uid);
  }
}
