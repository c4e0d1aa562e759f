/**
 The admin's workshop server actions.  `upsertWorkshop` builds the raw values
 from the submitted form, validates them, and then either updates the workshop
 named by the form's `id` or creates a new one; `getWorkshops` lists every
 workshop, latest date first, with its registration count.
 */
module WorkshopActions {
  import opened Js
  import opened Schema
  import opened Listing
  import opened WorkshopSchema

  /** A submitted form entry: text, or an uploaded file. */
  datatype Entry = Text(s: string) | File

  type Form = map<string, Entry>

  /** `formData.get(name)`: `null` when the field is absent. */
  function Get(form: Form, name: string): (v: Value)
    ensures name !in form ==> v == Null
    ensures name in form && form[name].Text? ==> v == Str(form[name].s)
    ensures name in form && form[name].File? ==> v == Blob
  {
    if name !in form then Null
    else match form[name]
      case Text(s) => Str(s)
      case File => Blob
  }

  /**
   What the action takes from its surroundings: the schema's number parser and
   URL check, `new Date(string)` (`None` for an Invalid Date), and the id
   `crypto.randomUUID()` returns.
   */
  datatype UpsertEnv = UpsertEnv(schema: WorkshopSchema.Env, parseDate: string -> Option<int>, freshId: WorkshopId)

  /** `new Date(formData.get("date") as string)`; `new Date(null)` is the epoch. */
  function DateOf(form: Form, env: UpsertEnv): (d: Option<int>)
    ensures "date" !in form ==> d == Some(0)
    ensures "date" in form && form["date"].Text? ==> d == env.parseDate(form["date"].s)
  {
    match Get(form, "date")
    case Str(s) => env.parseDate(s)
    case Blob => env.parseDate("[object File]")
    case _ => Some(0)
  }

  /** The object handed to the validator. */
  function RawData(form: Form, env: UpsertEnv): (input: Input)
    ensures input.isOpen == Bool(Get(form, "isOpen") == Str("true"))
    ensures input.date == DateVal(DateOf(form, env))
    ensures input.title == Get(form, "title") && input.thumbnail == Get(form, "thumbnail")
    ensures input.totalSeats == Get(form, "totalSeats") && input.discount == Get(form, "discount")
  {
    Input(
      Get(form, "title"), Get(form, "description"), DateVal(DateOf(form, env)),
      Get(form, "time"), Get(form, "location"), Get(form, "totalSeats"),
      Get(form, "price"), Get(form, "discount"), Get(form, "thumbnail"),
      Bool(Get(form, "isOpen") == Str("true")))
  }

  /**
   What `Number(formData.get(name))` gives for each kind of form entry: 0 for
   an absent field, the parsed text for a text entry, and no finite number for
   a file.
   */
  lemma CoerceFormEntry(form: Form, name: string, env: UpsertEnv)
    ensures name !in form ==> Coerce(Get(form, name), env.schema) == Some(0.0)
    ensures name in form && form[name].Text? ==>
              Coerce(Get(form, name), env.schema) == env.schema.parseNumber(form[name].s)
    ensures name in form && form[name].File? ==> Coerce(Get(form, name), env.schema).None?
  {
  }

  /** The form's `id` is truthy: a non-empty string or a file. */
  predicate Editing(form: Form) {
    match Get(form, "id")
    case Str(s) => s != ""
    case Blob => true
    case _ => false
  }

  /** The seat count column holds integers; a fractional count makes the store reject the write. */
  predicate Storable(d: Data) {
    d.totalSeats.Floor as real == d.totalSeats
  }

  /** The stored row for validated data with the given seat counter. */
  function ToWorkshop(d: Data, availableSeats: int): (w: Workshop)
    ensures w.totalSeats as real == d.totalSeats <== Storable(d)
    ensures w.availableSeats == availableSeats
    ensures w.title == d.title && w.date == d.date && w.price == d.price && w.discount == d.discount
    ensures w.isOpen == d.isOpen && w.thumbnail == d.thumbnail
  {
    Workshop(d.title, d.description, d.date, d.time, d.location, d.totalSeats.Floor,
             availableSeats, d.price, d.discount, d.thumbnail, d.isOpen)
  }

  const StoreFailure: string := "Failed to save workshop. Please try again."

  /** `Saved` is the redirect to the workshop list. */
  datatype Outcome = Saved | Failed(message: string, errors: set<Field>)

  function Upsert(db: Db, form: Form, env: UpsertEnv): (out: (Outcome, Db))
    // invalid input: reported field by field, nothing written
    ensures SafeParse(RawData(form, env), env.schema).Failure? ==>
              out == (Failed("Invalid fields", Errors(RawData(form, env), env.schema)), db)
    // any failure leaves the store as it was
    ensures out.0.Failed? ==> out.1 == db
    ensures out.0.Failed? && out.0.message != "Invalid fields" ==> out.0 == Failed(StoreFailure, {})
    // only the workshop table moves
    ensures out.1.users == db.users && out.1.registrations == db.registrations
    // saved exactly when the input is valid, the seat count storable and the target id usable
    ensures out.0.Saved? <==>
              && SafeParse(RawData(form, env), env.schema).Success?
              && Storable(SafeParse(RawData(form, env), env.schema).data)
              && (Editing(form) ==> Get(form, "id").Str? && Get(form, "id").s in db.workshops)
              && (!Editing(form) ==> env.freshId !in db.workshops)
    // an update writes the validated fields over the named workshop, keeping its seat counter
    ensures out.0.Saved? && Editing(form) ==>
              && Get(form, "id").Str? && Get(form, "id").s in db.workshops
              && var d := SafeParse(RawData(form, env), env.schema).data;
              && var id := Get(form, "id").s;
              && out.1.workshops == db.workshops[id := ToWorkshop(d, db.workshops[id].availableSeats)]
    // a create writes them under the fresh id, with every seat available
    ensures out.0.Saved? && !Editing(form) ==>
              && SafeParse(RawData(form, env), env.schema).Success?
              && var d := SafeParse(RawData(form, env), env.schema).data;
              && out.1.workshops == db.workshops[env.freshId := ToWorkshop(d, d.totalSeats.Floor)]
  {
    var parsed := SafeParse(RawData(form, env), env.schema);
    if parsed.Failure? then (Failed("Invalid fields", parsed.errors), db)
    else
      var d := parsed.data;
      if Editing(form) then
        var id := Get(form, "id");
        if !id.Str? || id.s !in db.workshops || !Storable(d) then (Failed(StoreFailure, {}), db)
        else (Saved, db.(workshops := db.workshops[id.s := ToWorkshop(d, db.workshops[id.s].availableSeats)]))
      else if env.freshId in db.workshops || !Storable(d) then (Failed(StoreFailure, {}), db)
      else (Saved, db.(workshops := db.workshops[env.freshId := ToWorkshop(d, d.totalSeats.Floor)]))
  }

  /** `isOpen` is stored true exactly when the form sent the string "true". */
  lemma IsOpenIffTrueString(db: Db, form: Form, env: UpsertEnv)
    requires Upsert(db, form, env).0.Saved?
    ensures var id := if Editing(form) then Get(form, "id").s else env.freshId;
            && id in Upsert(db, form, env).1.workshops
            && (Upsert(db, form, env).1.workshops[id].isOpen <==> "isOpen" in form && form["isOpen"] == Text("true"))
  {
    var input := RawData(form, env);
    NoErrorsMeansEveryCheckPasses(input, env.schema);
  }

  /** The action always sends a boolean `isOpen`, so that field never fails validation. */
  lemma IsOpenNeverInvalid(form: Form, env: UpsertEnv)
    ensures IsOpen !in Errors(RawData(form, env), env.schema)
  {
  }

  /** Creating: one new workshop under the fresh id whose counter starts full. */
  lemma CreateStartsFull(db: Db, form: Form, env: UpsertEnv)
    requires !Editing(form)
    requires Upsert(db, form, env).0.Saved?
    ensures var db' := Upsert(db, form, env).1;
            && env.freshId !in db.workshops
            && db'.workshops.Keys == db.workshops.Keys + {env.freshId}
            && db'.workshops[env.freshId].availableSeats == db'.workshops[env.freshId].totalSeats >= 1
            && SeatsInRange(db'.workshops[env.freshId])
            && forall id :: id in db.workshops ==> db'.workshops[id] == db.workshops[id]
  {
    var input := RawData(form, env);
    NoErrorsMeansEveryCheckPasses(input, env.schema);
  }

  /** Updating: the same workshops, the edited one keeps its seat counter. */
  lemma UpdateKeepsCounter(db: Db, form: Form, env: UpsertEnv)
    requires Editing(form)
    requires Upsert(db, form, env).0.Saved?
    ensures var id := Get(form, "id").s;
            var db' := Upsert(db, form, env).1;
            && id in db.workshops
            && db'.workshops.Keys == db.workshops.Keys
            && db'.workshops[id].availableSeats == db.workshops[id].availableSeats
            && forall other :: other in db.workshops && other != id ==> db'.workshops[other] == db.workshops[other]
  {
  }

  /** Creating keeps the store consistent. */
  lemma {:induction false} CreatePreservesValid(db: Db, form: Form, env: UpsertEnv)
    requires Valid(db)
    requires !Editing(form)
    ensures Valid(Upsert(db, form, env).1)
  {
    var (out, db') := Upsert(db, form, env);
    if out.Saved? {
      CreateStartsFull(db, form, env);
      forall id | id in db'.registrations
        ensures db'.registrations[id].workshopId in db'.workshops
      {
        assert db'.registrations[id] == db.registrations[id];
      }
    }
  }

  /**
   Updating keeps the store consistent exactly when the new seat total is not
   below the workshop's remaining seats: the counter is not re-established.
   */
  lemma {:induction false} UpdateValidIff(db: Db, form: Form, env: UpsertEnv)
    requires Valid(db)
    requires Editing(form)
    requires Upsert(db, form, env).0.Saved?
    ensures var id := Get(form, "id").s;
            var db' := Upsert(db, form, env).1;
            Valid(db') <==> db'.workshops[id].totalSeats >= db.workshops[id].availableSeats
  {
    var id := Get(form, "id").s;
    var db' := Upsert(db, form, env).1;
    var input := RawData(form, env);
    NoErrorsMeansEveryCheckPasses(input, env.schema);
    UpdateKeepsCounter(db, form, env);
    if db'.workshops[id].totalSeats >= db.workshops[id].availableSeats {
      forall x | x in db'.workshops
        ensures SeatsInRange(db'.workshops[x])
      {
        if x != id {
          assert db'.workshops[x] == db.workshops[x];
        }
      }
      forall r | r in db'.registrations
        ensures db'.registrations[r].workshopId in db'.workshops
      {
        assert db'.registrations[r] == db.registrations[r];
      }
    } else {
      assert !SeatsInRange(db'.workshops[id]);
    }
  }

  /** The edit form of the counterexample below: workshop "w1" resubmitted with 5 seats. */
  function LoweringForm(): Form {
    map["id" := Text("w1"), "title" := Text("Pottery"), "description" := Text("Wheel basics"),
        "time" := Text("10:00"), "location" := Text("Studio"), "totalSeats" := Text("5"),
        "price" := Text("500"), "thumbnail" := Text("u"), "isOpen" := Text("true")]
  }

  /** The counterexample's id and text entries. */
  lemma LoweringFormText()
    ensures var form := LoweringForm();
            && Get(form, "id") == Str("w1") && Get(form, "title") == Str("Pottery")
            && Get(form, "description") == Str("Wheel basics") && Get(form, "time") == Str("10:00")
            && Get(form, "location") == Str("Studio") && Get(form, "thumbnail") == Str("u")
  {
  }

  /** The counterexample's numeric and flag entries; discount and date are absent. */
  lemma LoweringFormNumbers()
    ensures var form := LoweringForm();
            && Get(form, "totalSeats") == Str("5") && Get(form, "price") == Str("500")
            && Get(form, "isOpen") == Str("true")
            && Get(form, "discount") == Null && Get(form, "date") == Null
  {
  }

  /** The environment of the counterexample: "5" parses as 5, any other number as 500. */
  function LoweringEnv(): UpsertEnv {
    UpsertEnv(WorkshopSchema.Env(s => if s == "5" then Some(5.0) else Some(500.0), s => true), s => Some(0), "w2")
  }

  /** The counterexample's text fields pass their checks. */
  lemma LoweringTextValid()
    ensures var input := RawData(LoweringForm(), LoweringEnv());
            && StringAtLeast(input.title, 3).Some? && StringAtLeast(input.description, 10).Some?
            && StringAtLeast(input.time, 1).Some? && StringAtLeast(input.location, 3).Some?
  {
    var input := RawData(LoweringForm(), LoweringEnv());
    LoweringFormText();
    LoweringFormNumbers();
    assert input.title == Str("Pottery") && input.description == Str("Wheel basics");
    assert input.time == Str("10:00") && input.location == Str("Studio");
    assert Length("Pottery") >= |"Pottery"| && Length("Wheel basics") >= |"Wheel basics"|;
  }

  /** The counterexample's date is the epoch and its thumbnail passes the URL check. */
  lemma LoweringDateAndUrlValid()
    ensures var input := RawData(LoweringForm(), LoweringEnv());
            ValidDate(input.date).Some? && Url(input.thumbnail, LoweringEnv().schema).Some?
  {
    LoweringFormText();
    LoweringFormNumbers();
  }

  /** The counterexample's numeric and boolean fields pass their checks, with 5 seats. */
  lemma LoweringNumbersValid()
    ensures var input := RawData(LoweringForm(), LoweringEnv());
            var env := LoweringEnv().schema;
            && NumberAtLeast(input.totalSeats, 1.0, env) == Some(5.0)
            && NumberAtLeast(input.price, 0.0, env).Some?
            && NumberOrZero(input.discount, env).Some? && BoolOrTrue(input.isOpen).Some?
  {
    var input := RawData(LoweringForm(), LoweringEnv());
    LoweringFormNumbers();
    assert input.totalSeats == Str("5") && input.price == Str("500") && input.discount == Null;
  }

  /** The counterexample's form passes validation with 5 seats. */
  lemma LoweringFormValid()
    ensures var p := SafeParse(RawData(LoweringForm(), LoweringEnv()), LoweringEnv().schema);
            p.Success? && p.data.totalSeats == 5.0
  {
    var env := LoweringEnv();
    var input := RawData(LoweringForm(), env);
    LoweringTextValid();
    LoweringDateAndUrlValid();
    LoweringNumbersValid();
    forall f | f in AllFields
      ensures !Fails(f, input, env.schema)
    {
      match f
      case Title =>
      case Description =>
      case Date =>
      case Time =>
      case Location =>
      case TotalSeats =>
      case Price =>
      case Discount =>
      case Thumbnail =>
      case IsOpen =>
    }
    assert Errors(input, env.schema) == {};
  }

  /** The store of the counterexample: one full workshop of 10 seats and no registrations. */
  function LoweringDb(): (db: Db)
    ensures Valid(db)
    ensures db.workshops.Keys == {"w1"} && db.workshops["w1"].totalSeats == 10 == db.workshops["w1"].availableSeats
  {
    Db(map[], map["w1" := Workshop("Pottery", "Wheel basics", 0, "10:00", "Studio", 10, 10, 500.0, 0.0, "u", true)], map[])
  }

  /** Lowering a full workshop's seats from 10 to 5 leaves 10 available out of 5. */
  lemma LoweringSeatsOverfills()
    ensures var (out, db') := Upsert(LoweringDb(), LoweringForm(), LoweringEnv());
            && out.Saved?
            && db'.workshops["w1"].totalSeats == 5 && db'.workshops["w1"].availableSeats == 10
            && Valid(LoweringDb()) && !Valid(db')
  {
    LoweringFormValid();
    LoweringFormText();
    assert Editing(LoweringForm());
    var db' := Upsert(LoweringDb(), LoweringForm(), LoweringEnv()).1;
    assert !SeatsInRange(db'.workshops["w1"]);
  }

  /** A workshop row of the listing: the workshop and how many registrations it has. */
  datatype Summary = Summary(workshop: Workshop, registrationCount: nat)

  function SummaryDate(s: Summary): int {
    s.workshop.date
  }

  /** Every workshop with its registration count. */
  function Summaries(db: Db): (t: map<WorkshopId, Summary>)
    ensures t.Keys == db.workshops.Keys
    ensures forall id :: id in t ==>
              t[id].workshop == db.workshops[id] && t[id].registrationCount == |RegistrationsOf(db.registrations, id)|
  {
    map id | id in db.workshops :: Summary(db.workshops[id], |RegistrationsOf(db.registrations, id)|)
  }

  /** `getWorkshops`: every workshop once, latest date first. */
  method GetWorkshops(db: Db) returns (rows: seq<(WorkshopId, Summary)>)
    ensures |rows| == |db.workshops|
    ensures Lists(rows, Summaries(db))
    ensures Descending(rows, SummaryDate)
  {
    rows := ListBy(Summaries(db), SummaryDate);
  }
}
