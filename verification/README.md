# Workshop registration core, in Dafny

A model of the server-side core of a workshop-registration web application.
Visitors buy seats in workshops through a payment gateway. Administrators
create and edit workshops, cancel them, remind registrants and watch a
dashboard.

The database is an immutable value `Schema.Db` made of three maps:

- users, keyed by e-mail;
- workshops, keyed by id;
- registrations, keyed by registration id.

Every request handler and server action is a pure function. It takes the
store and the request and returns the response, plus the new store when it
writes. The consistency rules the application relies on are collected in
`Schema.Valid`:

- `0 <= availableSeats <= totalSeats` for every workshop;
- user ids are unique;
- there is at most one registration per (user, workshop) pair;
- every registration points at an existing user and workshop.

The lemmas prove which operations preserve these rules and which do not.

Around the store sit the small pure pieces the admin pages and the cart
decide with:

- the form validator and the form's serialisation;
- the upload guard;
- the status badges;
- the dashboard figures;
- the reminder dialog;
- the navigation highlight.

Effects the application delegates to other code become parameters:

- the HMAC of the payment callback, as `sign`;
- the payment gateway's order creation, as `gateway`;
- fresh ids and the clock;
- the outcome of every e-mail send, as `delivered`;
- number, date and URL parsing, and number and date printing.

Money is an exact `real`. `Math.round` is `Js.Round`.

## Model

| member | source | states |
|---|---|---|
| VerifyPayment.Handle | app/api/razorpay/verify-payment/route.ts:12-125 | No session e-mail: 401 and nothing changes. A bad signature: 400 and nothing changes. Any rejection leaves registrations and workshops untouched, and existing users are never altered. It succeeds exactly when the checks pass, in the source's order. On success it adds exactly one registration under a fresh id. That registration belongs to the session's user and has seats = quantity, paid, "completed", method "razorpay", the request's payment and order ids, and pricePaid = final price × quantity. Only that workshop's availableSeats changes, and it drops by exactly the quantity. |
| VerifyPayment.SignedPayload | app/api/razorpay/verify-payment/route.ts:28-33 | The signed text is the order id, a single "\|", then the payment id, and both parts can be read back from it. |
| VerifyPayment.ResolveUser | app/api/razorpay/verify-payment/route.ts:43-57 | An existing user is returned unchanged. Otherwise a user is created under the session id (or a fresh id) and every other user is kept. Creation fails exactly when that id is already taken. |
| VerifyPayment.DuplicateRejected | app/api/razorpay/verify-payment/route.ts:59-74 | An existing registration for the same user and workshop gives 400 "Already registered for this workshop" and leaves the store unchanged. |
| VerifyPayment.NotFoundAndSeatErrors | app/api/razorpay/verify-payment/route.ts:77-93 | A missing workshop gives 404 and too few seats gives 400. Neither changes any seat count or registration. |
| VerifyPayment.UserCreatedEvenWhenRejected | app/api/razorpay/verify-payment/route.ts:43-57 | A first-time payer whose request is then rejected (unknown workshop) is still left with a stored user. |
| VerifyPayment.SeatsStayNonNegative | app/api/razorpay/verify-payment/route.ts:88-93 | Because the seat check precedes the decrement, non-negative seat counters stay non-negative. |
| VerifyPayment.HandlePreservesValid | app/api/razorpay/verify-payment/route.ts:99-125 | For a quantity of at least 0, a consistent store stays consistent. This covers the seat range, the one-registration-per-user rule and the references. |
| VerifyPayment.NegativeQuantityOverfillsSeats | app/api/razorpay/verify-payment/route.ts:88-122 | Quantity −5 on a full 10-seat workshop is accepted and leaves 15 of 10 seats available, so the store is no longer consistent. |
| VerifyPayment.HandleChecked | app/api/razorpay/create-order/route.ts:25-30 | The verify handler with the create-order quantity check added: a quantity below 1 from a signed-in user gives 400 with no change. Every other request gets exactly the response and store of `VerifyPayment.Handle`. |
| VerifyPayment.HandleCheckedPreservesValid | app/api/razorpay/verify-payment/route.ts:99-125 | With the quantity check, every request keeps a consistent store consistent. |
| CreateOrder.Handle | app/api/razorpay/create-order/route.ts:14-82 | The checks run in order: 401, 400 for bad input, 404, 400 for seats, 400 for closed, 500 when the gateway fails. Each error holds exactly when the earlier checks pass and its own fails. An order is in INR and its amount is the rounded paise of final price × quantity. The store is only read. |
| CreateOrder.SeatsCheckedBeforeOpen | app/api/razorpay/create-order/route.ts:44-57 | A workshop that is both full and closed reports the seats error. |
| CreateOrder.ClosedRejected | app/api/razorpay/create-order/route.ts:52-57 | A closed workshop with enough seats reports "Registration is closed". |
| CreateOrder.AmountIsExactForWholeNumbers | app/api/razorpay/create-order/route.ts:60-61 | For whole-number price and discount the amount is exactly price × (100 − discount) × quantity paise. |
| CreateOrder.OrderMatchesRecordedPrice | app/api/razorpay/create-order/route.ts:60-61 | For any price and discount, and the same workshop and quantity, the order amount is `Math.round` of 100 × the pricePaid that verify-payment records, so it is within half a paisa of it. |
| CreateOrder.OrderExactForWholeNumbers | app/api/razorpay/create-order/route.ts:60-61 | For whole-number price and discount the order amount equals 100 × the recorded pricePaid exactly. |
| Money.Paise | app/api/razorpay/create-order/route.ts:60-61 | The amount is within half a paisa of final price × quantity × 100. |
| Money.FinalPrice | app/api/razorpay/verify-payment/route.ts:97 | The seat price is the list price scaled by the share left to pay, price × (100 − discount) / 100. No discount charges the list price and a 100 % discount charges nothing. The same formula is at lib/store.ts:73. |
| Money.FinalPriceBounds | app/admin/components/workshops/column.tsx:520 | With a discount between 0 and 100 %, the final price lies between 0 and the list price. |
| Money.PaiseExact | app/api/razorpay/create-order/route.ts:60-61 | With whole numbers, rounding is exact: price × (100 − discount) × quantity. |
| CancelWorkshop.Handle | app/api/admin/cancel-workshop/route.ts:197-271 | No id: 400 and nothing is deleted. An unknown id: 404 and nothing is deleted. Otherwise the workshop and all its registrations, paid or not, are removed, and nothing else changes. The notified set is exactly the paid and completed registrations captured before deletion, total is its size, and successful ≤ total. |
| CancelWorkshop.SuccessfulCountsDeliveries | app/api/admin/cancel-workshop/route.ts:264-271 | successful counts exactly the sends that did not throw. |
| CancelWorkshop.NoPaidRegistrants | app/api/admin/cancel-workshop/route.ts:229-236 | Without paid registrants the reply reports 0 of 0, and the workshop's pending registrations are still deleted. |
| CancelWorkshop.PendingDeletedNotNotified | app/api/admin/cancel-workshop/route.ts:201-224 | A registration that is not paid and completed is deleted and gets no e-mail. |
| CancelWorkshop.HandlePreservesValid | app/api/admin/cancel-workshop/route.ts:217-224 | The cascade keeps the store consistent: no registration refers to the deleted workshop. |
| Mailing.TallyAddsUp | app/api/admin/send-reminder/route.ts:238-247 | Delivered and failed sends add up to the number of recipients. |
| Mailing.Subject | app/api/admin/cancel-workshop/route.ts:37 | A subject is its prefix followed by the workshop title, and both parts can be read back from it. |
| Mailing.SubjectInjective | app/api/admin/send-reminder/route.ts:34 | Equal subjects name the same workshop. |
| Mailing.SubjectsDiffer | app/api/admin/cancel-workshop/route.ts:37 | A "CANCELED: " subject never equals a "REMINDER: " subject. |
| SendReminder.Recipients | app/api/admin/send-reminder/route.ts:178-203 | A non-empty id list selects the listed registrations of that workshop, whatever their payment state. Otherwise it selects the workshop's paid and completed registrations. |
| SendReminder.Handle | app/api/admin/send-reminder/route.ts:169-247 | No id: 400. No recipients: 404, and nothing is attempted. Otherwise there is one attempt per recipient, and successful + failed = total = number of recipients. A send fails exactly when it did not go through. |
| SendReminder.ExplicitIgnoresPayment | app/api/admin/send-reminder/route.ts:178-190 | A listed unpaid registration of the workshop is reminded. |
| SendReminder.EmptyListMeansPaid | app/api/admin/send-reminder/route.ts:178-203 | An empty list behaves as no list. |
| SendReminder.OtherWorkshopSkipped | app/api/admin/send-reminder/route.ts:178-190 | A listed id of another workshop is never reminded. |
| ReminderDialog.PaidEntries | app/admin/components/sendremainder.tsx:46-48 | Keeps exactly the paid and completed registrations. |
| ReminderDialog.PaidEntriesAppend | app/admin/components/sendremainder.tsx:46-48 | Filtering distributes over concatenation, so the original order is kept. |
| ReminderDialog.Toggle | app/admin/components/sendremainder.tsx:97-101 | The toggled id is selected afterwards exactly when it was not selected before. No other id changes. |
| ReminderDialog.ToggleTwice | app/admin/components/sendremainder.tsx:97-101 | Toggling twice restores membership. Starting from "not selected", it restores the list itself. |
| ReminderDialog.ToggleAll | app/admin/components/sendremainder.tsx:103-109 | A selection as long as the paid list is cleared. Otherwise every paid id is selected, in order. |
| ReminderDialog.ToggleAllTwice | app/admin/components/sendremainder.tsx:103-109 | A second "select all" click after one that selected everything clears the selection. |
| ReminderDialog.ToggleAllSelectsPaid | app/admin/components/sendremainder.tsx:103-109 | "Select all" selects exactly the ids of the paid and completed registrations. |
| ReminderDialog.SetSendToAll | app/admin/components/sendremainder.tsx:166-170 | Ticking "send to all" clears the selection. Unticking it keeps the selection. |
| ReminderDialog.SendToAllEnables | app/admin/components/sendremainder.tsx:166-170 | With "send to all" ticked, the button is enabled exactly when no send is in flight. Unticking it with nothing selected disables the button. |
| ReminderDialog.SendEnabled | app/admin/components/sendremainder.tsx:241 | The button is enabled exactly when no send is in flight and either "send to all" is ticked or at least one registration is ticked. When it is enabled without "send to all", the request names a non-empty id list. |
| ReminderDialog.MakeRequest | app/admin/components/sendremainder.tsx:50-62 | The body names this workshop. Its id list counts as an explicit selection exactly when "send to all" is off and something is ticked; with "send to all" off it is the ticked ids. |
| ReminderDialog.OpenChange | app/admin/components/sendremainder.tsx:111-119 | While loading nothing changes. Closing also drops the result. |
| ReminderDialog.OpenChangeIdempotent | app/admin/components/sendremainder.tsx:111-119 | Repeating an open or a close changes nothing more. |
| ReminderDialog.EnabledRequestSelectsShownRecipients | app/admin/components/sendremainder.tsx:62 | When the button is enabled, the endpoint reminds exactly who the dialog chose. With "send to all" that is the paid list; otherwise it is the ticked registrations of this workshop. |
| Js.Length | lib/validations/workshop.ts:4-9 | A string's length in UTF-16 code units, as `.length` and zod's `min` count it, lies between its character count and twice that. |
| Js.LengthConcat | lib/validations/workshop.ts:4-9 | The lengths of two joined strings add up. |
| Js.LengthOfBmp | lib/validations/workshop.ts:4-9 | A string without characters beyond U+FFFF has one code unit per character. |
| Js.AstralCountsTwice | lib/validations/workshop.ts:4 | An emoji followed by one letter is two characters but has length 3. |
| WorkshopSchema.ErrorsPerField | lib/validations/workshop.ts:4-15 | Each field is reported exactly when its own constraint fails. String minimums are in UTF-16 code units: title ≥ 3, description ≥ 10, time ≥ 1, location ≥ 3, a valid date, seats ≥ 1 and price ≥ 0 after coercion, a finite discount or none, a URL, and a boolean or absent isOpen. |
| WorkshopSchema.SafeParse | lib/validations/workshop.ts:3-16 | Parsing fails exactly when some field fails, and it then reports all failing fields. |
| WorkshopSchema.SuccessMeetsConstraints | lib/validations/workshop.ts:4-15 | Accepted data meet every bound. An absent discount becomes 0 and an absent isOpen becomes true. |
| WorkshopSchema.Coerce | lib/validations/workshop.ts:11-13 | `Number(null)` is 0, while undefined, NaN and files are not numbers. |
| WorkshopSchema.MissingSeatsRejected | lib/validations/workshop.ts:11 | A missing seat count (null, so 0) is rejected. |
| WorkshopSchema.DiscountUnbounded | lib/validations/workshop.ts:13 | Any finite discount, negative or above 100, passes unchanged. |
| WorkshopActions.RawData | app/admin/actions/workshop.ts:20-31 | The validator sees the form's values. isOpen is a boolean, true exactly when the form sent "true". A missing date is the epoch. |
| WorkshopActions.Upsert | app/admin/actions/workshop.ts:15-83 | Invalid input: "Invalid fields" with the failing fields, and no write. Any failure leaves the store unchanged, and a store failure carries the fixed message. Users and registrations never change. It saves exactly when the input is valid, the seat count is whole, and the target id is usable: the edited workshop exists, or the fresh id is unused. An update writes the validated fields over the named workshop and keeps its seat counter. A create writes them under the fresh id with every seat available. |
| WorkshopActions.CoerceFormEntry | app/admin/actions/workshop.ts:20-31 | `Number` of a form entry is 0 for an absent field, the parsed text for a text entry, and not a finite number for a file. |
| WorkshopActions.IsOpenIffTrueString | app/admin/actions/workshop.ts:30 | The stored workshop is open exactly when the form's isOpen was the string "true". |
| WorkshopActions.IsOpenNeverInvalid | app/admin/actions/workshop.ts:30 | The action always sends a boolean isOpen, so that field never fails. |
| WorkshopActions.CreateStartsFull | app/admin/actions/workshop.ts:60-71 | Create adds exactly one workshop, under the fresh id, with availableSeats = totalSeats ≥ 1. The existing workshops are unchanged. |
| WorkshopActions.UpdateKeepsCounter | app/admin/actions/workshop.ts:49-59 | Update keeps the set of workshops and the edited workshop's availableSeats. Other workshops are unchanged. |
| WorkshopActions.CreatePreservesValid | app/admin/actions/workshop.ts:60-71 | Creating keeps a consistent store consistent. |
| WorkshopActions.UpdateValidIff | app/admin/actions/workshop.ts:49-59 | After an update the store is consistent exactly when the new totalSeats is at least the old availableSeats. |
| WorkshopActions.LoweringSeatsOverfills | app/admin/actions/workshop.ts:49-59 | Lowering a full 10-seat workshop to 5 seats leaves 10 available, so the store is no longer consistent. |
| WorkshopActions.GetWorkshops | app/admin/actions/workshop.ts:84-104 | Lists every workshop once, with its registration count, latest date first. |
| RegistrationActions.GetRegistrationById | app/admin/actions/registrations.ts:39-57 | Returns the stored registration when the id exists. Otherwise it fails with "Failed to fetch registration". |
| RegistrationActions.Apply | app/admin/actions/registrations.ts:60-72 | Exactly the supplied fields among paid, paymentStatus and paymentMethod change. Every other field is kept. |
| RegistrationActions.UpdatePaymentStatus | app/admin/actions/registrations.ts:60-79 | An unknown id is an error and nothing changes. Otherwise only that registration changes: seats, user and workshop stay the same, and no workshop's seats move. |
| RegistrationActions.ReadAfterUpdate | app/admin/actions/registrations.ts:39-79 | Fetching a registration after updating it returns the patched row. Every other id reads as before. |
| RegistrationActions.UpdatePreservesValid | app/admin/actions/registrations.ts:60-79 | A payment-status update keeps a consistent store consistent. |
| RegistrationActions.GetRegistrations | app/admin/actions/registrations.ts:5-31 | Lists every registration once, newest first. |
| RegistrationActions.GetWorkshopRegistrations | app/admin/actions/registrations.ts:97-121 | An unknown workshop is an error. Otherwise it returns the workshop and exactly its registrations, newest first. |
| Listing.ListBy | app/admin/actions/registrations.ts:27-29 | The rows are exactly the map's entries, each once, ordered by the key from largest to smallest. |
| Dashboard.PaidAtMostTotal | app/admin/page.tsx:21-24 | There are never more paid and completed registrations than registrations. |
| Dashboard.TotalRevenue | app/admin/page.tsx:43-53 | Revenue is the sum of pricePaid over the paid and completed registrations, with a null price counting 0. |
| Dashboard.NoPaidNoRevenue | app/admin/page.tsx:53 | With no paid registration the revenue is 0. |
| Dashboard.RevenueNonNegative | app/admin/page.tsx:43-53 | Non-negative prices give non-negative revenue. |
| Dashboard.ConversionRate | app/admin/page.tsx:160-162 | The rate is 0 with no registrations. Otherwise rate × total = paid × 100. |
| Dashboard.ConversionRateBounds | app/admin/page.tsx:160-162 | The rate lies in [0, 100]. It is 100 exactly when everyone has paid, and 0 exactly when nobody has. |
| Dashboard.RecentRegistrations | app/admin/page.tsx:25-32 | Returns min(5, n) distinct registrations, newest first. No registration left out is newer than one shown. |
| Dashboard.UpcomingWorkshops | app/admin/page.tsx:33-40 | Returns min(5, n) distinct open workshops dated now or later, earliest first. No upcoming workshop left out is earlier than one shown. |
| Dashboard.Upcoming | app/admin/page.tsx:34 | A workshop is upcoming exactly when it is open and dated now or later. Its partner `Dashboard.UpcomingTable` holds exactly the upcoming workshops of the store. |
| Dashboard.GetDashboardStats | app/admin/page.tsx:10-57 | The counts are the table sizes, and paid ≤ total. Revenue is the sum above. Recent holds min(5, n) distinct registrations, newest first, with none left out newer. Upcoming holds min(5, n) distinct upcoming workshops, earliest first, with none left out earlier. |
| Cart.AddToCart | lib/store.ts:29-39 | The workshop's line is (re)set with quantity 1. Every other line is unchanged. |
| Cart.AddReplacesLine | lib/store.ts:29-39 | Adding overwrites the old line: removing first makes no difference. |
| Cart.RemoveFromCart | lib/store.ts:41-47 | Only that key is removed. An absent key leaves the cart as it was. |
| Cart.RemoveIdempotent | lib/store.ts:41-47 | Removing twice equals removing once. |
| Cart.Clamp | lib/store.ts:55 | The result is at least 1, at most maxSeats when maxSeats ≥ 1, and an in-range quantity is kept. |
| Cart.UpdateQuantity | lib/store.ts:49-66 | An absent key leaves the cart unchanged. Otherwise only that line's quantity changes, to the clamped value. |
| Cart.UpdateIdempotent | lib/store.ts:49-66 | Applying the same quantity twice equals applying it once. |
| Cart.OperationsKeepQuantitiesPositive | lib/store.ts:29-69 | Every operation keeps all quantities ≥ 1. |
| Cart.TotalSeats | lib/store.ts:79-85 | The total seats is the sum of the quantities. |
| Cart.TotalPrice | lib/store.ts:71-77 | The total price is the sum of (price − price·discount/100) × quantity. |
| Cart.ClearedTotalsZero | lib/store.ts:69-85 | After clearing, both totals are 0. |
| Cart.ClearCart | lib/store.ts:69 | Clearing leaves no line at all. Its partner `Cart.ClearedTotalsZero` gives totals of 0. |
| Cart.SeatsAtLeastLines | lib/store.ts:79-85 | With positive quantities there are at least as many seats as lines. |
| Cart.AddToCartTotals | lib/store.ts:29-39 | Adding contributes one seat and one discounted unit price, after the old line is dropped. |
| Cart.RemoveFromCartTotals | lib/store.ts:41-47 | Removing takes exactly that line's seats and price out of the totals. |
| WorkshopForm.InitialValues | app/admin/components/workshopform.tsx:49-60 | A missing or 0 seat count becomes 10, and a missing time becomes "10:00". An explicit isOpen = false is kept. A new form starts open and without a date. |
| WorkshopForm.ClosedWorkshopStaysClosed | app/admin/components/workshopform.tsx:59 | Editing a closed workshop starts with isOpen false. |
| WorkshopForm.CheckUpload | app/admin/components/workshopform.tsx:103-115 | A file is uploaded exactly when it exists, has an "image/" type and is at most 2 MiB. |
| WorkshopForm.UploadMonotoneInSize | app/admin/components/workshopform.tsx:103-115 | A smaller file of the same name and type passes wherever a larger one does. |
| WorkshopForm.TwoMebibytesAccepted | app/admin/components/workshopform.tsx:110 | A file of exactly 2 MiB is uploaded. One byte more is refused. |
| WorkshopForm.Extension | app/admin/components/workshopform.tsx:66 | The result is the longest dot-free suffix: the text after the last dot, or the whole name. |
| WorkshopForm.UploadFilename | app/admin/components/workshopform.tsx:67 | The name is the lower-cased stamp with "-workshop", a dot, and the lower-cased extension. |
| WorkshopForm.UploadFilenameKeepsExtension | app/admin/components/workshopform.tsx:66-67 | The stored name's extension is the original extension, lower-cased. |
| WorkshopForm.Submission | app/admin/components/workshopform.tsx:117-135 | Something is sent exactly when a date is set; without one `toISOString` throws. "id" is sent exactly when editing. The thumbnail is the uploaded URL when non-empty, otherwise the form value. The sent keys are exactly the ten form fields, plus "id" when editing. title, description, time and location are sent as typed, and totalSeats, price and discount as printed numbers. isOpen is sent as `String(bool)`, and the date as its ISO string. |
| WorkshopForm.NewFormNeedsDate | app/admin/components/workshopform.tsx:52 | A new workshop's form sends nothing until a date is picked. |
| WorkshopForm.SubmissionRoundTrip | app/admin/components/workshopform.tsx:121-135 | The action reads back the same isOpen, title and thumbnail. It updates exactly when the form was editing. |
| WorkshopForm.SeatsRoundTrip | app/admin/components/workshopform.tsx:131 | When number printing and parsing agree, the seat count arrives unchanged. |
| WorkshopForm.DateRoundTrip | app/admin/components/workshopform.tsx:128 | When date parsing undoes `toISOString`, the picked date arrives unchanged. |
| WorkshopForm.EditReadsBackWorkshop | app/admin/components/workshopform.tsx:45-60 | Opening a workshop for editing and saving at once sends back its title, open flag and thumbnail. Its seat count comes back too, with a stored 0 becoming 10. |
| WorkshopForm.EnabledSubmitSendsUpload | app/admin/components/workshopform.tsx:435 | An enabled button means nothing is pending or uploading, and the uploaded thumbnail is what gets sent. |
| WorkshopForm.SubmitDisabled | app/admin/components/workshopform.tsx:435 | The button is enabled exactly when nothing is saving, nothing is uploading and a thumbnail URL is present. |
| WorkshopColumns.PriceCellOf | app/admin/components/workshops/column.tsx:520-545 | The struck-through list price appears exactly when discount > 0. The price shown is then the final price. |
| WorkshopColumns.StruckPriceIsHigher | app/admin/components/workshops/column.tsx:520-545 | For a positive price and a discount in (0, 100], the struck price exceeds the final price. |
| WorkshopColumns.SeatBadge | app/admin/components/workshops/column.tsx:555-569 | The badge is never "outline". With no seats at all it is "default" exactly when some are available and "destructive" otherwise, as the Infinity/NaN comparisons give. The thresholds for total > 0 are in `WorkshopColumns.SeatBadgeThresholds`. |
| WorkshopColumns.SeatBadgeThresholds | app/admin/components/workshops/column.tsx:555-569 | With total > 0: "default" iff 2·available > total, "secondary" iff 2·available ≤ total < 5·available, "destructive" iff 5·available ≤ total. |
| WorkshopColumns.FullAndSoldOut | app/admin/components/workshops/column.tsx:555-569 | A fully available workshop is "default". A sold-out one is "destructive". |
| WorkshopColumns.HandleClose | app/admin/components/workshops/column.tsx:101-106 | A dialog closes only when it is idle and shows no result, and closing changes nothing else. A busy dialog, or one with a result, is unchanged. |
| WorkshopColumns.HandleCloseIdempotent | app/admin/components/workshops/column.tsx:101-106 | Closing twice is closing once, and so is the final close. |
| WorkshopColumns.HandleFinalClose | app/admin/components/workshops/column.tsx:108-111 | The final close always closes the dialog. The result stays on screen until the timer fires, and busy is untouched. The same handler is at lines 288-291. |
| WorkshopColumns.ResultTimerFires | app/admin/components/workshops/column.tsx:110 | The 300 ms timer only drops the result; the dialog stays open or closed as it was. |
| WorkshopColumns.FinalCloseSettles | app/admin/components/workshops/column.tsx:101-111 | For an idle dialog, once the final close and its timer have run, the dialog is closed with no result, and `handleClose` changes nothing more. |
| WorkshopColumns.UserNoun | app/admin/components/workshops/column.tsx:324 | "user" exactly for a count of 1, "users" otherwise. |
| WorkshopColumns.UserNounSingularOnlyForOne | app/admin/components/workshops/column.tsx:324 | Two counts get the same noun exactly when both or neither are 1, and the noun always starts with "user". |
| PaymentBadge.LabelOf | app/admin/components/registrations/column.tsx:157-175 | "Paid" iff paid and "completed". Otherwise "Pending" or "Failed" by status, and "Unpaid" for anything else. |
| PaymentBadge.VariantMatchesLabel | app/admin/components/registrations/column.tsx:157-175 | The variant is the label's own variant: default, secondary, destructive, outline. |
| PaymentBadge.LabelVariantInjective | app/admin/components/registrations/column.tsx:157-175 | Different labels have different variants. |
| PaymentBadge.CompletedButUnpaid | app/admin/components/registrations/column.tsx:168-174 | A completed but unpaid row reads "Unpaid". |
| PaymentBadge.BadgeMatchesSettled | app/admin/users/edit/page.tsx:186-204 | A registration is badged "Paid" exactly when it counts as paid everywhere else. |
| PaymentBadge.AmountCell | app/admin/components/registrations/column.tsx:183-189 | "N/A" exactly for a null or 0 price. |
| PaymentBadge.UserPageAmount | app/admin/users/edit/page.tsx:212-214 | Shows the price paid when non-zero, otherwise the list price. |
| PaymentBadge.AmountsAgree | app/admin/users/edit/page.tsx:212-214 | The user page shows the table's figure where there is one, and the list price where the table shows "N/A". |
| PaymentBadge.TextOrNA | app/admin/components/registrations/column.tsx:83 | Null or empty text reads "N/A". |
| PaymentBadge.TextOrNAIdempotent | app/admin/components/registrations/column.tsx:83 | The shown text is never empty, and applying the fallback twice is applying it once. |
| PaymentBadge.CardOf | app/admin/users/edit/page.tsx:118-129 | The badge counts the user's registrations. The empty state shows exactly when the user has none. |
| PaymentBadge.EmptyStateIffZero | app/admin/users/edit/page.tsx:118-129 | The empty state shows exactly when the badge counts 0. |
| PaymentBadge.CardUnaffectedByPaymentUpdate | app/admin/users/edit/page.tsx:118-129 | Updating a registration's payment fields leaves every user's card as it was. |
| FloatingDock.AtMostOneActive | app/admin/components/floatingdock.tsx:28-64 | For any path, at most one of the five links is highlighted. |
| FloatingDock.IsActive | app/admin/components/floatingdock.tsx:59-64 | The dashboard link is active exactly on "/admin". Every other link is active exactly when its href is a prefix of the path, character by character. |
| FloatingDock.DashboardExactOnly | app/admin/components/floatingdock.tsx:59-63 | The dashboard link is active exactly on "/admin". A sub-page activates its section instead. |
| FloatingDock.RawPrefixMatch | app/admin/components/floatingdock.tsx:63 | "/admin/usersX" activates the Users link. |
| Schema.EmptyIsValid | app/api/razorpay/verify-payment/route.ts:99-125 | The empty store is consistent. |

## Left out

- E-mail bodies, templating and the SMTP transport are left out. Each send is reduced to its outcome, the `delivered` parameter.
- HMAC-SHA256 is the `sign` parameter. `crypto.randomUUID`, `Date.now()` and `new Date()` are parameters too.
- The payment gateway's order creation is the `gateway` parameter, returning an order id or failing.
- The database's transactions, isolation and concurrent requests are left out. Each handler is one sequential transition, so the race between two reservations is not modelled.
- Database failures are modelled only as unique-key collisions on a fresh id, plus writes the schema rejects (a missing row, a fractional seat count). Other outages are left out.
- Floating-point arithmetic and formatting are left out: `toFixed`, `Intl.NumberFormat` and date formatting. Money and percentages are exact reals.
- Framework plumbing is left out: sign-in, `revalidatePath`, `redirect`, `fetch`, the upload endpoint, timers, page reloads, local-storage persistence and all rendering.
- Zod's URL check, date parsing and string-to-number parsing are abstract parameters.
- Lower-casing is modelled for ASCII letters only.
- WorkshopForm.Submission: the form values are typed as the form declares them. Without a validating resolver a field could hold another type after user input; that is not modelled beyond the missing date.
- The response messages that embed counts are reduced to the counts.
- The admin's `getWorkshopsWithRegistrationCount` is the same query as `getWorkshops` and is modelled by `WorkshopActions.GetWorkshops`.
- Pages and components without decisions of their own are left out, as are read-only user queries.
- CreateOrder.Handle: `quantity` is an integer. A fractional JSON quantity such as 1.5 passes the source's check and is billed for 1.5 seats; that case is not modelled.
- VerifyPayment.Handle: the body's fields are assumed present and of their declared types, because the source destructures the JSON without checking it. A missing `workshopId` would make the database lookup throw, so the answer would be 500 "Failed to verify payment". A missing `quantity` passes the seat check, because `availableSeats < undefined` is false. A fractional quantity is also not modelled.
- Cart.UpdateQuantity: quantities are integers. A NaN or fractional quantity typed by the user is not modelled.
- WorkshopActions.Upsert: the 32-bit range of the stored seat count is not modelled, only its integrality.
- WorkshopColumns.SeatBadge: its own contract fixes the badge only for a total of 0. The thresholds for total > 0 are stated in `WorkshopColumns.SeatBadgeThresholds`. A negative total or negative availability is not given a reading of its own.

## Findings

| source | as written | input that shows it | evidently intended | confidence | as-written member | corrected member |
|---|---|---|---|---|---|---|
| app/api/razorpay/verify-payment/route.ts:88-122 | `quantity` from the callback body is never range-checked. The seat check `availableSeats < quantity` lets a negative quantity through, and the decrement then raises availableSeats. | quantity = −5 on a workshop with 10 of 10 seats available gives 15 of 10. | Reject a quantity below 1, as create-order does at its lines 25-30, so `0 <= availableSeats <= totalSeats` is kept. | not executed | VerifyPayment.NegativeQuantityOverfillsSeats | VerifyPayment.HandleCheckedPreservesValid |
