/**
 The admin's reminder endpoint: sends a reminder e-mail either to an explicit
 list of registrations of one workshop, or — when no list (or an empty one)
 is given — to every paid and completed registration of it.  It only reads
 the store.
 */
module SendReminder {
  import opened Js
  import opened Schema
  import Mailing

  datatype Request = Request(workshopId: Option<WorkshopId>, registrationIds: Option<seq<RegistrationId>>)

  datatype Response =
    | Sent(successful: nat, total: nat, failed: set<RegistrationId>, attempted: set<RegistrationId>)
    | Rejected(status: int, error: string)

  /** `registrationIds && registrationIds.length > 0`. */
  predicate Explicit(ids: Option<seq<RegistrationId>>) {
    ids.Some? && |ids.value| > 0
  }

  /**
   Who gets the reminder.  An explicit list selects the listed registrations
   of the workshop whatever their payment state; otherwise the paid ones.
   */
  function Recipients(regs: map<RegistrationId, Registration>, w: WorkshopId, ids: Option<seq<RegistrationId>>)
    : (r: set<RegistrationId>)
    ensures Explicit(ids) ==>
              forall id :: id in r <==> id in regs && id in ids.value && regs[id].workshopId == w
    ensures !Explicit(ids) ==> r == PaidRegistrationsOf(regs, w)
    ensures r <= RegistrationsOf(regs, w)
  {
    if Explicit(ids) then set id | id in regs && id in ids.value && regs[id].workshopId == w
    else PaidRegistrationsOf(regs, w)
  }

  function Handle(db: Db, req: Request, delivered: RegistrationId -> bool): (r: Response)
    ensures !Truthy(req.workshopId) ==> r == Rejected(400, "Workshop ID is required")
    ensures Truthy(req.workshopId) && Recipients(db.registrations, req.workshopId.value, req.registrationIds) == {} ==>
              r == Rejected(404, "No registrations found")
    ensures r.Sent? <==>
              Truthy(req.workshopId) && Recipients(db.registrations, req.workshopId.value, req.registrationIds) != {}
    // one attempt per recipient, and every attempt is counted once
    ensures r.Sent? ==>
              && r.attempted == Recipients(db.registrations, req.workshopId.value, req.registrationIds)
              && r.total == |r.attempted| > 0
              && r.successful + |r.failed| == r.total
              && r.failed <= r.attempted
              && (forall id :: id in r.failed <==> id in r.attempted && !delivered(id))
  {
    if !Truthy(req.workshopId) then Rejected(400, "Workshop ID is required")
    else
      var recipients := Recipients(db.registrations, req.workshopId.value, req.registrationIds);
      if |recipients| == 0 then Rejected(404, "No registrations found")
      else
        Mailing.TallyAddsUp(recipients, delivered);
        var ok := Mailing.Delivered(recipients, delivered);
        Sent(|ok|, |recipients|, Mailing.Failed(recipients, delivered), recipients)
  }

  /** An explicitly chosen registration is reminded even when it is still unpaid. */
  lemma ExplicitIgnoresPayment(db: Db, w: WorkshopId, id: RegistrationId, delivered: RegistrationId -> bool)
    requires w != ""
    requires id in db.registrations && db.registrations[id].workshopId == w
    ensures var r := Handle(db, Request(Some(w), Some([id])), delivered);
            r.Sent? && id in r.attempted
  {
    assert id in Recipients(db.registrations, w, Some([id]));
  }

  /** An empty list behaves like no list: the paid registrations are reminded. */
  lemma EmptyListMeansPaid(db: Db, w: WorkshopId, delivered: RegistrationId -> bool)
    ensures Handle(db, Request(Some(w), Some([])), delivered) == Handle(db, Request(Some(w), None), delivered)
  {
  }

  /** Listed ids of another workshop are silently skipped. */
  lemma OtherWorkshopSkipped(db: Db, w: WorkshopId, ids: seq<RegistrationId>, id: RegistrationId, delivered: RegistrationId -> bool)
    requires id in db.registrations && db.registrations[id].workshopId != w
    ensures var r := Handle(db, Request(Some(w), Some(ids)), delivered);
            r.Sent? ==> id !in r.attempted
  {
  }
}
