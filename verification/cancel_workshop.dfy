/**
 The admin's workshop cancellation: the workshop and every registration of
 it are deleted, and the registrants who had paid (captured before the
 deletion) are sent a cancellation e-mail each.  Failed sends are counted,
 never retried, and never undo the deletion.
 */
module CancelWorkshop {
  import opened Js
  import opened Schema
  import Mailing

  datatype Response =
    | Canceled(message: string, successful: nat, total: nat, workshopTitle: string, notified: set<RegistrationId>)
    | Rejected(status: int, error: string)

  /** The registration table with every registration of `w` removed. */
  function WithoutWorkshop(regs: map<RegistrationId, Registration>, w: WorkshopId)
    : (r: map<RegistrationId, Registration>)
    ensures r.Keys == regs.Keys - RegistrationsOf(regs, w)
    ensures forall id :: id in r ==> r[id] == regs[id]
  {
    map id | id in regs && regs[id].workshopId != w :: regs[id]
  }

  function Handle(db: Db, workshopId: Option<WorkshopId>, delivered: RegistrationId -> bool): (out: (Response, Db))
    ensures !Truthy(workshopId) ==> out == (Rejected(400, "Workshop ID is required"), db)
    ensures Truthy(workshopId) && workshopId.value !in db.workshops ==>
              out == (Rejected(404, "Workshop not found"), db)
    ensures out.0.Canceled? <==> Truthy(workshopId) && workshopId.value in db.workshops
    // the cascade: the workshop and all its registrations, paid or not, are gone; nothing else moves
    ensures out.0.Canceled? ==>
              && var w := workshopId.value;
              && out.1.workshops == db.workshops - {w}
              && out.1.registrations.Keys == db.registrations.Keys - RegistrationsOf(db.registrations, w)
              && (forall id :: id in out.1.registrations ==> out.1.registrations[id] == db.registrations[id])
              && out.1.users == db.users
    // recipients: exactly the paid and completed registrations captured before deletion
    ensures out.0.Canceled? ==>
              && out.0.notified == PaidRegistrationsOf(db.registrations, workshopId.value)
              && out.0.total == |out.0.notified|
              && out.0.successful <= out.0.total
              && out.0.workshopTitle == db.workshops[workshopId.value].title
  {
    if !Truthy(workshopId) then (Rejected(400, "Workshop ID is required"), db)
    else if workshopId.value !in db.workshops then (Rejected(404, "Workshop not found"), db)
    else
      var w := workshopId.value;
      var workshop := db.workshops[w];
      var recipients := PaidRegistrationsOf(db.registrations, w);
      var db' := db.(registrations := WithoutWorkshop(db.registrations, w), workshops := db.workshops - {w});
      if |recipients| == 0 then
        (Canceled("Workshop canceled and deleted successfully (no registrations)", 0, 0, workshop.title, recipients), db')
      else
        Mailing.TallyAddsUp(recipients, delivered);
        var ok := Mailing.Delivered(recipients, delivered);
        (Canceled("Workshop deleted and cancellations sent", |ok|, |recipients|, workshop.title, recipients), db')
  }

  /** `successful` counts exactly the sends that went through. */
  lemma SuccessfulCountsDeliveries(db: Db, workshopId: Option<WorkshopId>, delivered: RegistrationId -> bool)
    requires Handle(db, workshopId, delivered).0.Canceled?
    ensures var r := Handle(db, workshopId, delivered).0;
            r.successful == |Mailing.Delivered(r.notified, delivered)|
  {
  }

  /** A workshop without paid registrants reports 0 of 0, yet its pending registrations are still deleted. */
  lemma NoPaidRegistrants(db: Db, w: WorkshopId, delivered: RegistrationId -> bool)
    requires w != "" && w in db.workshops
    requires PaidRegistrationsOf(db.registrations, w) == {}
    ensures var (r, db') := Handle(db, Some(w), delivered);
            && r.successful == 0 && r.total == 0
            && forall id :: id in db'.registrations ==> db'.registrations[id].workshopId != w
  {
  }

  /** Pending registrants lose their registration but get no e-mail. */
  lemma PendingDeletedNotNotified(db: Db, w: WorkshopId, id: RegistrationId, delivered: RegistrationId -> bool)
    requires w != "" && w in db.workshops
    requires id in db.registrations && db.registrations[id].workshopId == w
    requires !Settled(db.registrations[id])
    ensures var (r, db') := Handle(db, Some(w), delivered);
            id !in r.notified && id !in db'.registrations
  {
  }

  /** Cancelling keeps the store consistent: no registration is left pointing at the deleted workshop. */
  lemma {:induction false} HandlePreservesValid(db: Db, workshopId: Option<WorkshopId>, delivered: RegistrationId -> bool)
    requires Valid(db)
    ensures Valid(Handle(db, workshopId, delivered).1)
  {
    var (r, db') := Handle(db, workshopId, delivered);
    if r.Canceled? {
      var w := workshopId.value;
      forall id | id in db'.registrations
        ensures db'.registrations[id].workshopId in db'.workshops
        ensures IsUserId(db'.users, db'.registrations[id].userId)
      {
        assert id !in RegistrationsOf(db.registrations, w);
        assert db'.registrations[id] == db.registrations[id];
      }
    }
  }
}
