/**
 The admin's workshop form: its initial values, the guard in front of a
 thumbnail upload, the name the uploaded file is stored under, and the form
 data it submits to the upsert action.  `Date.now()`, `toISOString()` and
 `Number.prototype.toString()` are parameters.
 */
module WorkshopForm {
  import opened Js
  import opened Schema
  import opened WorkshopSchema
  import WorkshopActions

  /**
   The form's values.  The form has no validating resolver, so these are what
   the fields hold; `date` is `None` until a date is picked.
   */
  datatype Values = Values(
    title: string, description: string, date: Option<int>, time: string, location: string,
    totalSeats: real, price: real, discount: real, thumbnail: string, isOpen: bool)

  /** `s || fallback` for a string that is present. */
  function Or(s: string, fallback: string): (r: string)
    ensures s != "" ==> r == s
    ensures s == "" ==> r == fallback
  {
    if s != "" then s else fallback
  }

  /** `n || fallback` for a number: 0 is falsy. */
  function OrNumber(n: real, fallback: real): (r: real)
    ensures n != 0.0 ==> r == n
    ensures n == 0.0 ==> r == fallback
  {
    if n != 0.0 then n else fallback
  }

  /** The default values, from the workshop being edited if any; a new workshop has no date yet. */
  function InitialValues(initial: Option<Workshop>): (d: Values)
    ensures initial.None? ==>
              d == Values("", "", None, "10:00", "", 10.0, 0.0, 0.0, "", true)
    ensures initial.Some? ==>
              && d.totalSeats == (if initial.value.totalSeats == 0 then 10.0 else initial.value.totalSeats as real)
              && d.time == (if initial.value.time == "" then "10:00" else initial.value.time)
              && d.isOpen == initial.value.isOpen
              && d.date == Some(initial.value.date)
              && d.title == initial.value.title && d.price == initial.value.price
  {
    match initial
    case None => Values("", "", None, "10:00", "", 10.0, 0.0, 0.0, "", true)
    case Some(w) =>
      Values(Or(w.title, ""), Or(w.description, ""), Some(w.date), Or(w.time, "10:00"),
               Or(w.location, ""), OrNumber(w.totalSeats as real, 10.0), OrNumber(w.price, 0.0),
               OrNumber(w.discount, 0.0), Or(w.thumbnail, ""), w.isOpen)
  }

  /** A workshop that was closed stays closed in the form: `??` keeps an explicit `false`. */
  lemma ClosedWorkshopStaysClosed(w: Workshop)
    requires !w.isOpen
    ensures !InitialValues(Some(w)).isOpen
  {
  }

  /** The picked file as the browser describes it. */
  datatype Picked = Picked(name: string, mimeType: string, size: int)

  datatype UploadDecision = NothingPicked | NotAnImage | TooLarge | Upload

  const MaxUploadBytes: int := 2 * 1024 * 1024

  /** The checks in front of an upload: a file, of an image type, of at most 2 MiB. */
  function CheckUpload(file: Option<Picked>): (d: UploadDecision)
    ensures d == Upload <==>
              file.Some? && StartsWith(file.value.mimeType, "image/") && file.value.size <= MaxUploadBytes
    ensures d == NothingPicked <==> file.None?
    ensures d == TooLarge ==> file.value.size > MaxUploadBytes
  {
    if file.None? then NothingPicked
    else if !StartsWith(file.value.mimeType, "image/") then NotAnImage
    else if file.value.size > MaxUploadBytes then TooLarge
    else Upload
  }

  /** A smaller file of the same type passes wherever a larger one does. */
  lemma UploadMonotoneInSize(name: string, mimeType: string, size: int, smaller: int)
    requires smaller <= size
    requires CheckUpload(Some(Picked(name, mimeType, size))) == Upload
    ensures CheckUpload(Some(Picked(name, mimeType, smaller))) == Upload
  {
  }

  /** A 2 MiB image is the largest that is uploaded. */
  lemma TwoMebibytesAccepted(name: string)
    ensures CheckUpload(Some(Picked(name, "image/png", 2097152))) == Upload
    ensures CheckUpload(Some(Picked(name, "image/png", 2097153))) == TooLarge
  {
  }

  /** `name.split('.').pop()`: the text after the last dot, or the whole name. */
  function Extension(name: string): (ext: string)
    ensures '.' !in ext
    ensures |ext| <= |name| && ext == name[|name| - |ext|..]
    ensures |ext| < |name| ==> name[|name| - |ext| - 1] == '.'
  {
    if |name| == 0 then ""
    else if name[|name| - 1] == '.' then ""
    else
      var prefix := name[..|name| - 1];
      var e := Extension(prefix);
      assert name == prefix + [name[|name| - 1]];
      e + [name[|name| - 1]]
  }

  /** The extension of `base + "." + ext` is `ext` when `ext` has no dot. */
  lemma {:induction false} ExtensionAfterDot(base: string, ext: string)
    requires '.' !in ext
    ensures Extension(base + "." + ext) == ext
    decreases |ext|
  {
    var name := base + "." + ext;
    if |ext| > 0 {
      var last := ext[|ext| - 1];
      var shorter := ext[..|ext| - 1];
      assert name[|name| - 1] == last;
      assert name[..|name| - 1] == base + "." + shorter;
      ExtensionAfterDot(base, shorter);
      assert ext == shorter + [last];
    }
  }

  /** `` `${Date.now()}-workshop.${extension}`.toLowerCase() ``. */
  function UploadFilename(stamp: string, name: string): (f: string)
    ensures f == Lower(stamp + "-workshop") + "." + Lower(Extension(name))
  {
    LowerDotJoin(stamp + "-workshop", Extension(name));
    Lower(stamp + "-workshop" + "." + Extension(name))
  }

  /** Lower-casing leaves the dot between two parts in place. */
  lemma LowerDotJoin(a: string, b: string)
    ensures Lower(a + "." + b) == Lower(a) + "." + Lower(b)
  {
    LowerConcat(a + ".", b);
    LowerConcat(a, ".");
  }

  /** Lower-casing neither adds nor removes dots. */
  lemma LowerKeepsDotFree(s: string)
    requires '.' !in s
    ensures '.' !in Lower(s)
  {
  }

  /** The stored name keeps the file's extension, lower-cased. */
  lemma UploadFilenameKeepsExtension(stamp: string, name: string)
    ensures Extension(UploadFilename(stamp, name)) == Lower(Extension(name))
  {
    LowerKeepsDotFree(Extension(name));
    ExtensionAfterDot(Lower(stamp + "-workshop"), Lower(Extension(name)));
  }

  /** How the browser prints a date and a number into the form. */
  datatype Printers = Printers(isoString: int -> string, numberToString: real -> string)

  /** The fields `onSubmit` always appends. */
  const SentFields: set<string> :=
    {"title", "description", "date", "time", "location", "totalSeats", "price", "discount", "thumbnail", "isOpen"}

  /**
   The form data `onSubmit` sends; `id` only when editing.  Without a date,
   `values.date.toISOString()` throws and nothing is sent (`None`).
   */
  function Submission(values: Values, editingId: Option<WorkshopId>, thumbnailUrl: string, p: Printers)
    : (sent: Option<WorkshopActions.Form>)
    ensures sent.Some? <==> values.date.Some?
    ensures sent.Some? ==> ("id" in sent.value <==> Truthy(editingId))
    ensures sent.Some? && "id" in sent.value ==> sent.value["id"] == WorkshopActions.Text(editingId.value)
    ensures sent.Some? ==>
              && "title" in sent.value && "date" in sent.value && "totalSeats" in sent.value
              && "thumbnail" in sent.value && "isOpen" in sent.value
              && sent.value["title"] == WorkshopActions.Text(values.title)
              && sent.value["date"] == WorkshopActions.Text(p.isoString(values.date.value))
              && sent.value["totalSeats"] == WorkshopActions.Text(p.numberToString(values.totalSeats))
              && sent.value["thumbnail"] ==
                   WorkshopActions.Text(if thumbnailUrl != "" then thumbnailUrl else values.thumbnail)
              && sent.value["isOpen"] == WorkshopActions.Text(BoolToString(values.isOpen))
    ensures sent.Some? ==>
              && sent.value.Keys == SentFields + (if Truthy(editingId) then {"id"} else {})
              && sent.value["description"] == WorkshopActions.Text(values.description)
              && sent.value["time"] == WorkshopActions.Text(values.time)
              && sent.value["location"] == WorkshopActions.Text(values.location)
              && sent.value["price"] == WorkshopActions.Text(p.numberToString(values.price))
              && sent.value["discount"] == WorkshopActions.Text(p.numberToString(values.discount))
  {
    if values.date.None? then None
    else
      var fields := map[
        "title" := WorkshopActions.Text(values.title),
        "description" := WorkshopActions.Text(values.description),
        "date" := WorkshopActions.Text(p.isoString(values.date.value)),
        "time" := WorkshopActions.Text(values.time),
        "location" := WorkshopActions.Text(values.location),
        "totalSeats" := WorkshopActions.Text(p.numberToString(values.totalSeats)),
        "price" := WorkshopActions.Text(p.numberToString(values.price)),
        "discount" := WorkshopActions.Text(p.numberToString(values.discount)),
        "thumbnail" := WorkshopActions.Text(if thumbnailUrl != "" then thumbnailUrl else values.thumbnail),
        "isOpen" := WorkshopActions.Text(BoolToString(values.isOpen))];
      Some(if Truthy(editingId) then fields["id" := WorkshopActions.Text(editingId.value)] else fields)
  }

  /** A new workshop's form sends nothing until a date is picked. */
  lemma NewFormNeedsDate(editingId: Option<WorkshopId>, thumbnailUrl: string, p: Printers)
    ensures Submission(InitialValues(None), editingId, thumbnailUrl, p).None?
  {
  }

  /**
   The server reads back what the form sent: the same `isOpen`, the same
   title, the chosen thumbnail, and an update exactly when editing.
   */
  lemma SubmissionRoundTrip(values: Values, editingId: Option<WorkshopId>, thumbnailUrl: string, p: Printers,
                            env: WorkshopActions.UpsertEnv)
    ensures var sent := Submission(values, editingId, thumbnailUrl, p);
            sent.Some? ==>
              var input := WorkshopActions.RawData(sent.value, env);
              && input.isOpen == Bool(values.isOpen)
              && input.title == Str(values.title)
              && input.thumbnail == Str(if thumbnailUrl != "" then thumbnailUrl else values.thumbnail)
              && (WorkshopActions.Editing(sent.value) <==> Truthy(editingId))
  {
    BoolStringRoundTrip(values.isOpen);
    var sent := Submission(values, editingId, thumbnailUrl, p);
    if sent.Some? {
      assert WorkshopActions.Get(sent.value, "isOpen") == Str(BoolToString(values.isOpen));
    }
  }

  /** When the number printer and parser agree, the seat count arrives unchanged. */
  lemma SeatsRoundTrip(values: Values, editingId: Option<WorkshopId>, thumbnailUrl: string, p: Printers,
                       env: WorkshopActions.UpsertEnv)
    requires env.schema.parseNumber(p.numberToString(values.totalSeats)) == Some(values.totalSeats)
    ensures var sent := Submission(values, editingId, thumbnailUrl, p);
            sent.Some? ==> Coerce(WorkshopActions.RawData(sent.value, env).totalSeats, env.schema) == Some(values.totalSeats)
  {
  }

  /** When `new Date(d.toISOString())` gives `d` back, the picked date arrives unchanged. */
  lemma DateRoundTrip(values: Values, editingId: Option<WorkshopId>, thumbnailUrl: string, p: Printers,
                      env: WorkshopActions.UpsertEnv)
    requires values.date.Some? ==> env.parseDate(p.isoString(values.date.value)) == values.date
    ensures var sent := Submission(values, editingId, thumbnailUrl, p);
            sent.Some? ==> ValidDate(WorkshopActions.RawData(sent.value, env).date) == values.date
  {
  }

  /**
   Opening a workshop for editing and saving it straight away sends back its
   own title and open flag, and its seat count (10 in place of a stored 0).
   */
  lemma EditReadsBackWorkshop(w: Workshop, editingId: Option<WorkshopId>, p: Printers, env: WorkshopActions.UpsertEnv)
    requires env.schema.parseNumber(p.numberToString(InitialValues(Some(w)).totalSeats)) ==
             Some(InitialValues(Some(w)).totalSeats)
    ensures var sent := Submission(InitialValues(Some(w)), editingId, w.thumbnail, p);
            && sent.Some?
            && var input := WorkshopActions.RawData(sent.value, env);
            && input.title == Str(w.title)
            && input.isOpen == Bool(w.isOpen)
            && input.thumbnail == Str(w.thumbnail)
            && Coerce(input.totalSeats, env.schema) == Some(if w.totalSeats == 0 then 10.0 else w.totalSeats as real)
  {
    var values := InitialValues(Some(w));
    assert values.title == w.title && values.thumbnail == Or(w.thumbnail, "");
    SubmissionRoundTrip(values, editingId, w.thumbnail, p, env);
    SeatsRoundTrip(values, editingId, w.thumbnail, p, env);
  }

  /** The submit button is disabled while saving, while uploading, or without an uploaded thumbnail. */
  function SubmitDisabled(isPending: bool, uploading: bool, thumbnailUrl: string): (disabled: bool)
    ensures !disabled ==> !isPending && !uploading && |thumbnailUrl| > 0
    ensures !isPending && !uploading && |thumbnailUrl| > 0 ==> !disabled
  {
    isPending || uploading || thumbnailUrl == ""
  }

  /** Whenever the button can be pressed, the submission carries the uploaded thumbnail. */
  lemma EnabledSubmitSendsUpload(values: Values, editingId: Option<WorkshopId>, thumbnailUrl: string, p: Printers,
                                 isPending: bool, uploading: bool)
    requires !SubmitDisabled(isPending, uploading, thumbnailUrl)
    ensures var sent := Submission(values, editingId, thumbnailUrl, p);
            sent.Some? ==> sent.value["thumbnail"] == WorkshopActions.Text(thumbnailUrl)
    ensures !isPending && !uploading
  {
  }
}
