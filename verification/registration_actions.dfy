/**
 The admin's registration queries and the payment-status update.  Ordered
 queries return `(id, registration)` pairs newest first.
 */
module RegistrationActions {
  import opened Js
  import opened Schema
  import opened Listing

  function RegisteredAt(r: Registration): int {
    r.registeredAt
  }

  /** The registrations of workshop `w`, as a table of their own. */
  function OfWorkshop(regs: map<RegistrationId, Registration>, w: WorkshopId): (t: map<RegistrationId, Registration>)
    ensures t.Keys == RegistrationsOf(regs, w)
    ensures forall id :: id in t ==> t[id] == regs[id]
  {
    map id | id in regs && regs[id].workshopId == w :: regs[id]
  }

  /** A missing id is an error; otherwise the stored row. */
  function GetRegistrationById(db: Db, id: RegistrationId): (r: Result<Registration>)
    ensures r.Ok? <==> id in db.registrations
    ensures r.Ok? ==> r.value == db.registrations[id]
    ensures r.Err? ==> r.error == "Failed to fetch registration"
  {
    if id in db.registrations then Ok(db.registrations[id]) else Err("Failed to fetch registration")
  }

  /** The fields an admin may set; a missing field is left alone. */
  datatype Patch = Patch(paid: Option<bool>, paymentStatus: Option<string>, paymentMethod: Option<string>)

  function Apply(r: Registration, p: Patch): (r': Registration)
    ensures r'.paid == (if p.paid.Some? then p.paid.value else r.paid)
    ensures r'.paymentStatus == (if p.paymentStatus.Some? then p.paymentStatus else r.paymentStatus)
    ensures r'.paymentMethod == (if p.paymentMethod.Some? then p.paymentMethod else r.paymentMethod)
    // everything else is untouched
    ensures r'.(paid := r.paid, paymentStatus := r.paymentStatus, paymentMethod := r.paymentMethod) == r
  {
    r.(paid := if p.paid.Some? then p.paid.value else r.paid,
       paymentStatus := if p.paymentStatus.Some? then p.paymentStatus else r.paymentStatus,
       paymentMethod := if p.paymentMethod.Some? then p.paymentMethod else r.paymentMethod)
  }

  /** Updates one registration's payment fields; seats and seat counters never move. */
  function UpdatePaymentStatus(db: Db, id: RegistrationId, patch: Patch): (out: (Result<Registration>, Db))
    ensures id !in db.registrations ==> out == (Err("Failed to update payment status"), db)
    ensures id in db.registrations ==>
              && out.0 == Ok(Apply(db.registrations[id], patch))
              && out.1 == db.(registrations := db.registrations[id := out.0.value])
    ensures out.0.Ok? ==>
              && out.0.value.seats == db.registrations[id].seats
              && out.0.value.userId == db.registrations[id].userId
              && out.0.value.workshopId == db.registrations[id].workshopId
              && out.1.workshops == db.workshops
  {
    if id !in db.registrations then (Err("Failed to update payment status"), db)
    else
      var r := Apply(db.registrations[id], patch);
      (Ok(r), db.(registrations := db.registrations[id := r]))
  }

  /** Reading a registration back after an update returns the patched row; other rows read as before. */
  lemma ReadAfterUpdate(db: Db, id: RegistrationId, patch: Patch, other: RegistrationId)
    requires id in db.registrations
    ensures GetRegistrationById(UpdatePaymentStatus(db, id, patch).1, id) == Ok(Apply(db.registrations[id], patch))
    ensures other != id ==>
              GetRegistrationById(UpdatePaymentStatus(db, id, patch).1, other) == GetRegistrationById(db, other)
  {
  }

  /** Changing payment fields keeps the store consistent. */
  lemma {:induction false} UpdatePreservesValid(db: Db, id: RegistrationId, patch: Patch)
    requires Valid(db)
    ensures Valid(UpdatePaymentStatus(db, id, patch).1)
  {
    var db' := UpdatePaymentStatus(db, id, patch).1;
    if id in db.registrations {
      var regs' := db'.registrations;
      forall a, b | a in regs' && b in regs' && a != b
        ensures regs'[a].userId != regs'[b].userId || regs'[a].workshopId != regs'[b].workshopId
      {
        assert a in db.registrations && b in db.registrations;
      }
    }
  }

  /** Every registration, newest first. */
  method GetRegistrations(db: Db) returns (rows: seq<(RegistrationId, Registration)>)
    ensures Lists(rows, db.registrations)
    ensures Descending(rows, RegisteredAt)
  {
    rows := ListBy(db.registrations, RegisteredAt);
  }

  /** The workshop and exactly its registrations, newest first; an unknown workshop is an error. */
  method GetWorkshopRegistrations(db: Db, w: WorkshopId)
    returns (r: Result<(Workshop, seq<(RegistrationId, Registration)>)>)
    ensures r.Err? <==> w !in db.workshops
    ensures r.Err? ==> r.error == "Workshop not found"
    ensures r.Ok? ==>
              && r.value.0 == db.workshops[w]
              && Lists(r.value.1, OfWorkshop(db.registrations, w))
              && Descending(r.value.1, RegisteredAt)
  {
    if w !in db.workshops {
      return Err("Workshop not found");
    }
    var rows := ListBy(OfWorkshop(db.registrations, w), RegisteredAt);
    r := Ok((db.workshops[w], rows));
  }
}
