/**
 The relational store behind the application, as immutable maps: users keyed
 by e-mail address, workshops keyed by id, registrations keyed by their own
 id.  Every request handler of the model is a pure function from a `Db` (and
 its inputs) to a response and a new `Db`.
 */
module Schema {
  import opened Js

  type Email = string
  type UserId = string
  type WorkshopId = string
  type RegistrationId = string

  /** A user row; the e-mail address is the key of the `users` map. */
  datatype User = User(id: UserId, name: Option<string>, phone: Option<string>)

  /** A workshop row.  Dates are instants in milliseconds. */
  datatype Workshop = Workshop(
    title: string,
    description: string,
    date: int,
    time: string,
    location: string,
    totalSeats: int,
    availableSeats: int,
    price: real,
    discount: real,
    thumbnail: string,
    isOpen: bool)

  /** A registration row: one user's booking of `seats` seats in one workshop. */
  datatype Registration = Registration(
    userId: UserId,
    workshopId: WorkshopId,
    seats: int,
    paymentMethod: Option<string>,
    paymentStatus: Option<string>,
    paid: bool,
    pricePaid: Option<real>,
    paymentId: Option<string>,
    orderId: Option<string>,
    registeredAt: int)

  datatype Db = Db(
    users: map<Email, User>,
    workshops: map<WorkshopId, Workshop>,
    registrations: map<RegistrationId, Registration>)

  /**
   The one test of "has paid" used by every query, filter and badge:
   the `paid` flag is set AND the status is exactly "completed".
   */
  predicate IsPaid(paid: bool, paymentStatus: Option<string>) {
    paid && paymentStatus == Some("completed")
  }

  predicate Settled(r: Registration) {
    IsPaid(r.paid, r.paymentStatus)
  }

  /** The seat counter of a workshop lies between 0 and its capacity. */
  predicate SeatsInRange(w: Workshop) {
    0 <= w.availableSeats <= w.totalSeats
  }

  /** Ids of the registrations of workshop `w`. */
  function RegistrationsOf(regs: map<RegistrationId, Registration>, w: WorkshopId): (ids: set<RegistrationId>)
    ensures forall id :: id in ids <==> id in regs && regs[id].workshopId == w
  {
    set id | id in regs && regs[id].workshopId == w
  }

  /** Ids of the registrations of workshop `w` that are paid and completed. */
  function PaidRegistrationsOf(regs: map<RegistrationId, Registration>, w: WorkshopId): (ids: set<RegistrationId>)
    ensures forall id :: id in ids <==> id in regs && regs[id].workshopId == w && Settled(regs[id])
    ensures ids <= RegistrationsOf(regs, w)
  {
    set id | id in regs && regs[id].workshopId == w && Settled(regs[id])
  }

  /** Does `user` already hold a registration for workshop `w`? */
  predicate HasRegistration(regs: map<RegistrationId, Registration>, user: UserId, w: WorkshopId) {
    exists id :: id in regs && regs[id].userId == user && regs[id].workshopId == w
  }

  /** User ids are unique across e-mail addresses (the user table's primary key). */
  predicate UserIdsUnique(users: map<Email, User>) {
    forall a, b :: a in users && b in users && a != b ==> users[a].id != users[b].id
  }

  predicate IsUserId(users: map<Email, User>, id: UserId) {
    exists e :: e in users && users[e].id == id
  }

  /** The unique constraint on (userId, workshopId) of the registration table. */
  predicate OneRegistrationPerUser(regs: map<RegistrationId, Registration>) {
    forall a, b :: a in regs && b in regs && a != b ==>
      regs[a].userId != regs[b].userId || regs[a].workshopId != regs[b].workshopId
  }

  /** Every registration points at an existing user and an existing workshop. */
  predicate ReferencesExist(db: Db) {
    forall id :: id in db.registrations ==>
      db.registrations[id].workshopId in db.workshops && IsUserId(db.users, db.registrations[id].userId)
  }

  /** The consistency the store is meant to keep between requests. */
  predicate Valid(db: Db) {
    && (forall w :: w in db.workshops ==> SeatsInRange(db.workshops[w]))
    && UserIdsUnique(db.users)
    && OneRegistrationPerUser(db.registrations)
    && ReferencesExist(db)
  }

  /** The empty store is consistent. */
  lemma EmptyIsValid()
    ensures Valid(Db(map[], map[], map[]))
  {
  }
}
