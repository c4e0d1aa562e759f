/**
 The payment-verification endpoint: after the gateway's checkout widget
 reports a payment, the server checks the gateway's signature over
 `orderId|paymentId`, finds or creates the signed-in user, rejects a second
 registration of the same user for the same workshop and a request for more
 seats than are left, and otherwise records the registration and takes the
 seats off the workshop's counter in one transaction.

 HMAC-SHA256 with the server secret is the uninterpreted `sign` of the
 environment; the fresh ids and the clock are inputs as well.
 */
module VerifyPayment {
  import opened Js
  import opened Schema
  import opened Auth
  import Money

  /** The JSON body posted by the checkout page. */
  datatype Request = Request(
    orderId: string,
    paymentId: string,
    signature: string,
    workshopId: WorkshopId,
    quantity: int)

  /** What the server cannot compute itself: the keyed HMAC, fresh ids, and the time. */
  datatype Env = Env(
    sign: string -> string,
    freshUserId: UserId,
    newRegistrationId: RegistrationId,
    now: int)

  datatype Response =
    | Verified(id: RegistrationId, registration: Registration)
    | Rejected(status: int, error: string)

  /** The text the gateway signs. */
  function SignedPayload(orderId: string, paymentId: string): (s: string)
    ensures |s| == |orderId| + |paymentId| + 1
    ensures s[|orderId|] == '|'
    ensures s[..|orderId|] == orderId && s[|orderId| + 1..] == paymentId
  {
    orderId + "|" + paymentId
  }

  predicate SignatureValid(req: Request, env: Env) {
    env.sign(SignedPayload(req.orderId, req.paymentId)) == req.signature
  }

  /**
   Get-or-create of the user row for `email`.  A new row takes the session's
   user id when it has one, a fresh id otherwise; `None` when that id already
   belongs to another row (the insert fails on the primary key).
   */
  function ResolveUser(users: map<Email, User>, email: Email, s: SessionUser, freshId: UserId)
    : (r: Option<(map<Email, User>, UserId)>)
    ensures email in users ==> r == Some((users, users[email].id))
    ensures r.Some? ==> email in r.value.0 && r.value.0[email].id == r.value.1
    ensures r.Some? ==> r.value.0.Keys == users.Keys + {email}
    ensures r.Some? ==> forall e :: e in users ==> r.value.0[e] == users[e]
    ensures r.Some? && email !in users ==> !IsUserId(users, r.value.1)
    ensures r.None? <==> email !in users && IsUserId(users, if Truthy(s.id) then s.id.value else freshId)
  {
    if email in users then Some((users, users[email].id))
    else
      var id := if Truthy(s.id) then s.id.value else freshId;
      if IsUserId(users, id) then None
      else Some((users[email := User(id, s.name, None)], id))
  }

  /** The registration row written for a verified payment. */
  function NewRegistration(user: UserId, req: Request, w: Workshop, now: int): Registration {
    Registration(
      userId := user,
      workshopId := req.workshopId,
      seats := req.quantity,
      paymentMethod := Some("razorpay"),
      paymentStatus := Some("completed"),
      paid := true,
      pricePaid := Some(Money.FinalPrice(w.price, w.discount) * req.quantity as real),
      paymentId := Some(req.paymentId),
      orderId := Some(req.orderId),
      registeredAt := now)
  }

  /** Everything that has to hold for the handler to record a registration. */
  predicate Accepts(db: Db, session: Option<SessionUser>, req: Request, env: Env) {
    && Authenticated(session)
    && SignatureValid(req, env)
    && var r := ResolveUser(db.users, session.value.email.value, session.value, env.freshUserId);
    && r.Some?
    && !HasRegistration(db.registrations, r.value.1, req.workshopId)
    && req.workshopId in db.workshops
    && db.workshops[req.workshopId].availableSeats >= req.quantity
    && env.newRegistrationId !in db.registrations
  }

  /** The endpoint as written: `(response, store after the request)`. */
  function Handle(db: Db, session: Option<SessionUser>, req: Request, env: Env): (out: (Response, Db))
    // no session e-mail: 401 and nothing changes
    ensures !Authenticated(session) ==> out == (Rejected(401, "Not authenticated"), db)
    // a bad signature: 400 before the store is read or written
    ensures Authenticated(session) && !SignatureValid(req, env) ==>
              out == (Rejected(400, "Invalid payment signature"), db)
    // a rejection never writes a registration or moves a seat counter
    ensures out.0.Rejected? ==>
              out.1.registrations == db.registrations && out.1.workshops == db.workshops
    // existing users are never altered; at most the session's user is added
    ensures forall e :: e in db.users ==> e in out.1.users && out.1.users[e] == db.users[e]
    ensures Authenticated(session) ==> out.1.users.Keys <= db.users.Keys + {session.value.email.value}
    ensures !Authenticated(session) ==> out.1.users == db.users
    // success exactly when every check passes
    ensures out.0.Verified? <==> Accepts(db, session, req, env)
    // on success: one new registration, and only that workshop's counter drops, by `quantity`
    ensures out.0.Verified? ==>
              && out.0.id == env.newRegistrationId
              && out.0.id !in db.registrations
              && out.1.registrations == db.registrations[out.0.id := out.0.registration]
    ensures out.0.Verified? ==>
              && out.0.registration.workshopId == req.workshopId
              && out.0.registration.seats == req.quantity
              && out.0.registration.paid
              && out.0.registration.paymentStatus == Some("completed")
    // the row belongs to the signed-in user and records this payment
    ensures out.0.Verified? ==>
              && Authenticated(session)
              && session.value.email.value in out.1.users
              && out.0.registration.userId == out.1.users[session.value.email.value].id
              && out.0.registration.paymentMethod == Some("razorpay")
              && out.0.registration.paymentId == Some(req.paymentId)
              && out.0.registration.orderId == Some(req.orderId)
              && out.0.registration.registeredAt == env.now
    ensures out.0.Verified? ==>
              && out.0.registration.pricePaid.Some?
              && out.0.registration.pricePaid.value ==
                   Money.FinalPrice(db.workshops[req.workshopId].price, db.workshops[req.workshopId].discount) * req.quantity as real
    ensures out.0.Verified? ==>
              && out.1.workshops.Keys == db.workshops.Keys
              && out.1.workshops[req.workshopId] ==
                   db.workshops[req.workshopId].(availableSeats := db.workshops[req.workshopId].availableSeats - req.quantity)
              && (forall x :: x in db.workshops && x != req.workshopId ==> out.1.workshops[x] == db.workshops[x])
  {
    if !Authenticated(session) then
      (Rejected(401, "Not authenticated"), db)
    else if !SignatureValid(req, env) then
      (Rejected(400, "Invalid payment signature"), db)
    else
      var email := session.value.email.value;
      match ResolveUser(db.users, email, session.value, env.freshUserId)
      case None => (Rejected(500, "Failed to verify payment"), db)
      case Some((users, uid)) =>
        var db1 := db.(users := users);
        if HasRegistration(db.registrations, uid, req.workshopId) then
          (Rejected(400, "Already registered for this workshop"), db1)
        else if req.workshopId !in db.workshops then
          (Rejected(404, "Workshop not found"), db1)
        else
          var w := db.workshops[req.workshopId];
          if w.availableSeats < req.quantity then
            (Rejected(400, "Not enough seats available"), db1)
          else if env.newRegistrationId in db.registrations then
            // the insert collides on the primary key; the transaction rolls back
            (Rejected(500, "Failed to verify payment"), db1)
          else
            var reg := NewRegistration(uid, req, w, env.now);
            (Verified(env.newRegistrationId, reg),
             db1.(registrations := db.registrations[env.newRegistrationId := reg],
                  workshops := db.workshops[req.workshopId := w.(availableSeats := w.availableSeats - req.quantity)]))
  }

  /**
   A second payment for a workshop the user already holds is turned away with
   "Already registered", whatever the seats left.
   */
  lemma DuplicateRejected(db: Db, session: Option<SessionUser>, req: Request, env: Env)
    requires Authenticated(session) && SignatureValid(req, env)
    requires session.value.email.value in db.users
    requires HasRegistration(db.registrations, db.users[session.value.email.value].id, req.workshopId)
    ensures Handle(db, session, req, env).0 == Rejected(400, "Already registered for this workshop")
    ensures Handle(db, session, req, env).1 == db
  {
  }

  /** An unknown workshop gives 404 and an over-large quantity gives 400; neither touches a seat. */
  lemma NotFoundAndSeatErrors(db: Db, session: Option<SessionUser>, req: Request, env: Env)
    requires Authenticated(session) && SignatureValid(req, env)
    requires session.value.email.value in db.users
    requires !HasRegistration(db.registrations, db.users[session.value.email.value].id, req.workshopId)
    ensures req.workshopId !in db.workshops ==>
              Handle(db, session, req, env) == (Rejected(404, "Workshop not found"), db)
    ensures req.workshopId in db.workshops && db.workshops[req.workshopId].availableSeats < req.quantity ==>
              Handle(db, session, req, env) == (Rejected(400, "Not enough seats available"), db)
  {
  }

  /**
   The user row is written before the duplicate, workshop and seat checks, so
   a first-time payer is stored even when the request is then turned away.
   */
  lemma UserCreatedEvenWhenRejected(db: Db, session: Option<SessionUser>, req: Request, env: Env)
    requires Authenticated(session) && SignatureValid(req, env)
    requires session.value.email.value !in db.users
    requires ResolveUser(db.users, session.value.email.value, session.value, env.freshUserId).Some?
    requires ReferencesExist(db)
    requires req.workshopId !in db.workshops
    ensures Handle(db, session, req, env).0 == Rejected(404, "Workshop not found")
    ensures session.value.email.value in Handle(db, session, req, env).1.users
  {
    var r := ResolveUser(db.users, session.value.email.value, session.value, env.freshUserId);
    var uid := r.value.1;
    forall id | id in db.registrations
      ensures db.registrations[id].userId != uid
    {
      assert IsUserId(db.users, db.registrations[id].userId);
    }
  }

  /**
   The seat check comes before the decrement, so no request — whatever its
   quantity — drives a counter below zero.
   */
  lemma SeatsStayNonNegative(db: Db, session: Option<SessionUser>, req: Request, env: Env)
    requires forall w :: w in db.workshops ==> db.workshops[w].availableSeats >= 0
    ensures var db' := Handle(db, session, req, env).1;
            forall w :: w in db'.workshops ==> db'.workshops[w].availableSeats >= 0
  {
  }

  /** Get-or-create keeps user ids unique and loses no user id. */
  lemma ResolveUserKeepsIds(users: map<Email, User>, email: Email, s: SessionUser, freshId: UserId)
    requires UserIdsUnique(users)
    requires ResolveUser(users, email, s, freshId).Some?
    ensures var (users', uid) := ResolveUser(users, email, s, freshId).value;
            UserIdsUnique(users') && IsUserId(users', uid)
            && forall u :: IsUserId(users, u) ==> IsUserId(users', u)
  {
    var (users', uid) := ResolveUser(users, email, s, freshId).value;
    forall a, b | a in users' && b in users' && a != b
      ensures users'[a].id != users'[b].id
    {
      if a == email && email !in users {
        assert users'[b] == users[b];
      } else if b == email && email !in users {
        assert users'[a] == users[a];
      }
    }
    forall u | IsUserId(users, u) ensures IsUserId(users', u) {
      var e :| e in users && users[e].id == u;
      assert users'[e] == users[e];
    }
    assert users'[email].id == uid;
  }

  /** Adding a registration for a (user, workshop) pair not yet booked keeps the pair unique. */
  lemma AddKeepsOnePerUser(regs: map<RegistrationId, Registration>, id: RegistrationId, r: Registration)
    requires OneRegistrationPerUser(regs)
    requires id !in regs
    requires !HasRegistration(regs, r.userId, r.workshopId)
    ensures OneRegistrationPerUser(regs[id := r])
  {
    var regs' := regs[id := r];
    forall a, b | a in regs' && b in regs' && a != b
      ensures regs'[a].userId != regs'[b].userId || regs'[a].workshopId != regs'[b].workshopId
    {
      if a == id {
        assert b in regs;
      } else if b == id {
        assert a in regs;
      }
    }
  }

  /** With a non-negative quantity the handler keeps the store consistent. */
  lemma {:induction false} HandlePreservesValid(db: Db, session: Option<SessionUser>, req: Request, env: Env)
    requires Valid(db)
    requires req.quantity >= 0
    ensures Valid(Handle(db, session, req, env).1)
  {
    var out := Handle(db, session, req, env);
    if Authenticated(session) && SignatureValid(req, env) {
      var email := session.value.email.value;
      var r := ResolveUser(db.users, email, session.value, env.freshUserId);
      if r.Some? {
        ResolveUserKeepsIds(db.users, email, session.value, env.freshUserId);
        if out.0.Verified? {
          AddKeepsOnePerUser(db.registrations, env.newRegistrationId, out.0.registration);
        }
      }
    }
  }

  /**
   The quantity is never range-checked, so a negative one — sent with any
   validly signed payment — raises the counter above the capacity.
   */
  lemma NegativeQuantityOverfillsSeats()
    ensures var w := Workshop("Strength", "Barbell basics", 0, "10:00", "Gym", 10, 10, 1000.0, 0.0, "https://x", true);
            var db := Db(map["a@x" := User("u1", None, None)], map["w1" := w], map[]);
            var session := Some(SessionUser(Some("a@x"), Some("u1"), None));
            var env := Env((s: string) => "sig", "u2", "r1", 0);
            var out := Handle(db, session, Request("o", "p", "sig", "w1", -5), env);
            && Valid(db)
            && out.0.Verified?
            && out.1.workshops["w1"].availableSeats == 15
            && !Valid(out.1)
  {
    var w := Workshop("Strength", "Barbell basics", 0, "10:00", "Gym", 10, 10, 1000.0, 0.0, "https://x", true);
    var db := Db(map["a@x" := User("u1", None, None)], map["w1" := w], map[]);
    var session := Some(SessionUser(Some("a@x"), Some("u1"), None));
    var env := Env((s: string) => "sig", "u2", "r1", 0);
    var req := Request("o", "p", "sig", "w1", -5);
    assert !HasRegistration(db.registrations, "u1", "w1");
    var out := Handle(db, session, req, env);
    assert !SeatsInRange(out.1.workshops["w1"]);
  }

  /**
   The endpoint with the quantity check the order endpoint already has:
   a quantity below 1 is refused before anything else is looked at.
   */
  function HandleChecked(db: Db, session: Option<SessionUser>, req: Request, env: Env): (out: (Response, Db))
    ensures Authenticated(session) && req.quantity < 1 ==> out == (Rejected(400, "Invalid request data"), db)
    ensures !(Authenticated(session) && req.quantity < 1) ==> out == Handle(db, session, req, env)
    ensures out.0.Verified? ==> req.quantity >= 1 && out == Handle(db, session, req, env)
    ensures out.0.Verified? ==>
              out.1.workshops[req.workshopId].availableSeats < db.workshops[req.workshopId].availableSeats
  {
    if Authenticated(session) && req.quantity < 1 then (Rejected(400, "Invalid request data"), db)
    else Handle(db, session, req, env)
  }

  /** The corrected endpoint keeps the store consistent on every request. */
  lemma {:induction false} HandleCheckedPreservesValid(db: Db, session: Option<SessionUser>, req: Request, env: Env)
    requires Valid(db)
    ensures Valid(HandleChecked(db, session, req, env).1)
  {
    if Authenticated(session) && req.quantity < 1 {
    } else if req.quantity >= 0 {
      HandlePreservesValid(db, session, req, env);
    } else {
      assert !Authenticated(session);
    }
  }
}
