/**
 The admin's workshop form validator: a zod object schema over the raw values
 a form submission produces.  Strings must reach a minimum length, the three
 numeric fields are coerced with JavaScript's `Number(...)` and must be finite,
 `discount` and `isOpen` have defaults, and the thumbnail must pass the URL
 check.  Parsing a numeric string, parsing a date and recognising a URL are
 left to the environment.
 */
module WorkshopSchema {
  import opened Js

  /** The raw JavaScript values a field can hold before validation. */
  datatype Value =
    | Undefined
    | Null
    | Str(s: string)
    | Bool(b: bool)
    | Num(n: real)           // a finite number
    | NotANumber             // NaN or an infinity
    | DateVal(time: Option<int>)  // a Date; `None` is an Invalid Date
    | Blob                   // an uploaded file

  /** The form fields, named as in the schema. */
  datatype Field =
    | Title | Description | Date | Time | Location
    | TotalSeats | Price | Discount | Thumbnail | IsOpen

  datatype Input = Input(
    title: Value, description: Value, date: Value, time: Value, location: Value,
    totalSeats: Value, price: Value, discount: Value, thumbnail: Value, isOpen: Value)

  /** The validated, typed values. */
  datatype Data = Data(
    title: string, description: string, date: int, time: string, location: string,
    totalSeats: real, price: real, discount: real, thumbnail: string, isOpen: bool)

  /**
   What the environment decides: `ToNumber(s)` for a string (`None` when it is
   NaN or infinite) and the URL check.
   */
  datatype Env = Env(parseNumber: string -> Option<real>, isUrl: string -> bool)

  /** `z.string().min(n)`, which compares the string's `.length` in UTF-16 code units. */
  function StringAtLeast(v: Value, n: nat): (r: Option<string>)
    ensures r.Some? <==> v.Str? && Length(v.s) >= n
    ensures r.Some? ==> r.value == v.s
  {
    if v.Str? && Length(v.s) >= n then Some(v.s) else None
  }

  /** `Number(v)` followed by zod's finiteness check; `None` is a NaN or an infinity. */
  function Coerce(v: Value, env: Env): (r: Option<real>)
    ensures v == Null ==> r == Some(0.0)
    ensures v == Undefined || v == NotANumber || v == Blob ==> r == None
    ensures v.Num? ==> r == Some(v.n)
    ensures v.Str? ==> r == env.parseNumber(v.s)
  {
    match v
    case Undefined => None
    case Null => Some(0.0)
    case Str(s) => env.parseNumber(s)
    case Bool(b) => Some(if b then 1.0 else 0.0)
    case Num(n) => Some(n)
    case NotANumber => None
    case DateVal(t) => if t.Some? then Some(t.value as real) else None
    case Blob => None
  }

  /** `z.coerce.number().min(lo)`. */
  function NumberAtLeast(v: Value, lo: real, env: Env): (r: Option<real>)
    ensures r.Some? <==> Coerce(v, env).Some? && Coerce(v, env).value >= lo
    ensures r.Some? ==> r.value == Coerce(v, env).value
  {
    var n := Coerce(v, env);
    if n.Some? && n.value >= lo then n else None
  }

  /** `z.coerce.number().default(0)`: an absent value is 0, any finite number passes. */
  function NumberOrZero(v: Value, env: Env): (r: Option<real>)
    ensures v == Undefined ==> r == Some(0.0)
    ensures v != Undefined ==> r == Coerce(v, env)
  {
    if v == Undefined then Some(0.0) else Coerce(v, env)
  }

  /** `z.date()`: a valid Date. */
  function ValidDate(v: Value): (r: Option<int>)
    ensures r.Some? <==> v.DateVal? && v.time.Some?
    ensures r.Some? ==> r.value == v.time.value
  {
    if v.DateVal? then v.time else None
  }

  /** `z.string().url()`. */
  function Url(v: Value, env: Env): (r: Option<string>)
    ensures r.Some? <==> v.Str? && env.isUrl(v.s)
    ensures r.Some? ==> r.value == v.s
  {
    if v.Str? && env.isUrl(v.s) then Some(v.s) else None
  }

  /** `z.boolean().default(true)`. */
  function BoolOrTrue(v: Value): (r: Option<bool>)
    ensures v == Undefined ==> r == Some(true)
    ensures v.Bool? ==> r == Some(v.b)
    ensures r.Some? <==> v == Undefined || v.Bool?
  {
    match v
    case Undefined => Some(true)
    case Bool(b) => Some(b)
    case _ => None
  }

  const AllFields: set<Field> :=
    {Title, Description, Date, Time, Location, TotalSeats, Price, Discount, Thumbnail, IsOpen}

  /** Whether the check of field `f` fails on `input`. */
  predicate Fails(f: Field, input: Input, env: Env) {
    match f
    case Title => StringAtLeast(input.title, 3).None?
    case Description => StringAtLeast(input.description, 10).None?
    case Date => ValidDate(input.date).None?
    case Time => StringAtLeast(input.time, 1).None?
    case Location => StringAtLeast(input.location, 3).None?
    case TotalSeats => NumberAtLeast(input.totalSeats, 1.0, env).None?
    case Price => NumberAtLeast(input.price, 0.0, env).None?
    case Discount => NumberOrZero(input.discount, env).None?
    case Thumbnail => Url(input.thumbnail, env).None?
    case IsOpen => BoolOrTrue(input.isOpen).None?
  }

  /** The fields whose check fails; zod reports all of them at once. */
  function Errors(input: Input, env: Env): (errs: set<Field>)
    ensures forall f :: f in errs <==> Fails(f, input, env)
  {
    set f | f in AllFields && Fails(f, input, env)
  }

  datatype Parsed = Success(data: Data) | Failure(errors: set<Field>)

  /** `workshopSchema.safeParse(input)`. */
  function SafeParse(input: Input, env: Env): (p: Parsed)
    ensures p.Failure? <==> Errors(input, env) != {}
    ensures p.Failure? ==> p.errors == Errors(input, env)
  {
    if Errors(input, env) != {} then Failure(Errors(input, env))
    else
      NoErrorsMeansEveryCheckPasses(input, env);
      Success(Data(
        StringAtLeast(input.title, 3).value,
        StringAtLeast(input.description, 10).value,
        ValidDate(input.date).value,
        StringAtLeast(input.time, 1).value,
        StringAtLeast(input.location, 3).value,
        NumberAtLeast(input.totalSeats, 1.0, env).value,
        NumberAtLeast(input.price, 0.0, env).value,
        NumberOrZero(input.discount, env).value,
        Url(input.thumbnail, env).value,
        BoolOrTrue(input.isOpen).value))
  }

  /** With no error reported, every field's check produced a value. */
  lemma NoErrorsMeansEveryCheckPasses(input: Input, env: Env)
    requires Errors(input, env) == {}
    ensures StringAtLeast(input.title, 3).Some? && StringAtLeast(input.description, 10).Some?
    ensures ValidDate(input.date).Some? && StringAtLeast(input.time, 1).Some?
    ensures StringAtLeast(input.location, 3).Some? && NumberAtLeast(input.totalSeats, 1.0, env).Some?
    ensures NumberAtLeast(input.price, 0.0, env).Some? && NumberOrZero(input.discount, env).Some?
    ensures Url(input.thumbnail, env).Some? && BoolOrTrue(input.isOpen).Some?
  {
    forall f | f in AllFields
      ensures !Fails(f, input, env)
    {
      assert f !in Errors(input, env);
    }
  }

  /** Each field is reported exactly when its own constraint fails. */
  lemma ErrorsPerField(input: Input, env: Env)
    ensures Title in Errors(input, env) <==> !(input.title.Str? && Length(input.title.s) >= 3)
    ensures Description in Errors(input, env) <==> !(input.description.Str? && Length(input.description.s) >= 10)
    ensures Date in Errors(input, env) <==> !(input.date.DateVal? && input.date.time.Some?)
    ensures Time in Errors(input, env) <==> !(input.time.Str? && Length(input.time.s) >= 1)
    ensures Location in Errors(input, env) <==> !(input.location.Str? && Length(input.location.s) >= 3)
    ensures TotalSeats in Errors(input, env) <==>
              !(Coerce(input.totalSeats, env).Some? && Coerce(input.totalSeats, env).value >= 1.0)
    ensures Price in Errors(input, env) <==>
              !(Coerce(input.price, env).Some? && Coerce(input.price, env).value >= 0.0)
    ensures Discount in Errors(input, env) <==> input.discount != Undefined && Coerce(input.discount, env).None?
    ensures Thumbnail in Errors(input, env) <==> !(input.thumbnail.Str? && env.isUrl(input.thumbnail.s))
    ensures IsOpen in Errors(input, env) <==> !(input.isOpen == Undefined || input.isOpen.Bool?)
  {
  }

  /** Whatever passes meets every constraint, and the data are the submitted values. */
  lemma SuccessMeetsConstraints(input: Input, env: Env)
    requires SafeParse(input, env).Success?
    ensures var d := SafeParse(input, env).data;
            && Length(d.title) >= 3 && Length(d.description) >= 10 && Length(d.time) >= 1 && Length(d.location) >= 3
            && d.totalSeats >= 1.0 && d.price >= 0.0 && env.isUrl(d.thumbnail)
            && input.title == Str(d.title) && input.thumbnail == Str(d.thumbnail)
            && (input.isOpen == Undefined ==> d.isOpen)
            && (input.discount == Undefined ==> d.discount == 0.0)
  {
    NoErrorsMeansEveryCheckPasses(input, env);
  }

  /** A missing form field arrives as `null`, which `Number(null)` turns into 0: no seats, rejected. */
  lemma MissingSeatsRejected(input: Input, env: Env)
    requires input.totalSeats == Null
    ensures TotalSeats in Errors(input, env)
  {
  }

  /** The discount has no bounds: a negative or an over-100 percentage passes. */
  lemma DiscountUnbounded(input: Input, env: Env, d: real)
    requires input.discount == Num(d)
    ensures Discount !in Errors(input, env)
    ensures SafeParse(input, env).Success? ==> SafeParse(input, env).data.discount == d
  {
  }
}
