/**
 The admin's "send reminder" dialog: it lists the paid registrations of a
 workshop, lets the admin pick some of them or "send to all", and posts the
 choice to the reminder endpoint.  The dialog state is a value and every
 event handler a function from state to state.
 */
module ReminderDialog {
  import opened Js
  import opened Schema
  import SendReminder

  /** The fields of a registration the dialog receives. */
  datatype Entry = Entry(id: RegistrationId, paid: bool, paymentStatus: Option<string>)

  datatype Dialog = Dialog(
    isOpen: bool,
    isLoading: bool,
    selectedIds: seq<RegistrationId>,
    sendToAll: bool,
    result: Option<string>)

  /** The paid and completed entries, in their original order. */
  function PaidEntries(entries: seq<Entry>): (r: seq<Entry>)
    ensures |r| <= |entries|
    ensures forall e :: e in r <==> e in entries && IsPaid(e.paid, e.paymentStatus)
  {
    if |entries| == 0 then []
    else
      var rest := PaidEntries(entries[1..]);
      assert forall e :: e in entries <==> e == entries[0] || e in entries[1..];
      if IsPaid(entries[0].paid, entries[0].paymentStatus) then [entries[0]] + rest else rest
  }

  /** Filtering keeps order: it distributes over concatenation. */
  lemma {:induction false} PaidEntriesAppend(a: seq<Entry>, b: seq<Entry>)
    ensures PaidEntries(a + b) == PaidEntries(a) + PaidEntries(b)
  {
    if |a| > 0 {
      assert (a + b)[0] == a[0];
      assert (a + b)[1..] == a[1..] + b;
      PaidEntriesAppend(a[1..], b);
    } else {
      assert a + b == b;
    }
  }

  function Ids(entries: seq<Entry>): (r: seq<RegistrationId>)
    ensures |r| == |entries|
    ensures forall i :: 0 <= i < |entries| ==> r[i] == entries[i].id
  {
    if |entries| == 0 then [] else [entries[0].id] + Ids(entries[1..])
  }

  /** `prev.filter(i => i !== id)`. */
  function Remove(s: seq<RegistrationId>, id: RegistrationId): (r: seq<RegistrationId>)
    ensures id !in r
    ensures forall x :: x != id ==> (x in r <==> x in s)
    ensures id !in s ==> r == s
  {
    if |s| == 0 then []
    else
      var rest := Remove(s[1..], id);
      assert forall x :: x in s <==> x == s[0] || x in s[1..];
      if s[0] == id then rest
      else
        assert id !in s ==> [s[0]] + s[1..] == s;
        [s[0]] + rest
  }

  /** A checkbox click on one registration: drop it if selected, otherwise append it. */
  function Toggle(selected: seq<RegistrationId>, id: RegistrationId): (r: seq<RegistrationId>)
    ensures id in r <==> id !in selected
    ensures forall x :: x != id ==> (x in r <==> x in selected)
  {
    if id in selected then Remove(selected, id) else selected + [id]
  }

  /** Toggling twice restores membership; from "not selected" it restores the list itself. */
  lemma ToggleTwice(selected: seq<RegistrationId>, id: RegistrationId)
    ensures forall x :: x in Toggle(Toggle(selected, id), id) <==> x in selected
    ensures id !in selected ==> Toggle(Toggle(selected, id), id) == selected
  {
    if id !in selected {
      RemoveAppended(selected, id);
    }
  }

  /** Removing an id just appended to a list without it gives the list back. */
  lemma {:induction false} RemoveAppended(s: seq<RegistrationId>, id: RegistrationId)
    requires id !in s
    ensures Remove(s + [id], id) == s
  {
    if |s| > 0 {
      assert (s + [id])[0] == s[0];
      assert (s + [id])[1..] == s[1..] + [id];
      RemoveAppended(s[1..], id);
    }
  }

  /** The "select all" box: clear when the selection is as long as the paid list, else select every paid id. */
  function ToggleAll(selected: seq<RegistrationId>, entries: seq<Entry>): (r: seq<RegistrationId>)
    ensures |selected| == |PaidEntries(entries)| ==> r == []
    ensures |selected| != |PaidEntries(entries)| ==>
              |r| == |PaidEntries(entries)| &&
              forall i :: 0 <= i < |r| ==> r[i] == PaidEntries(entries)[i].id
  {
    var paid := PaidEntries(entries);
    if |selected| == |paid| then [] else Ids(paid)
  }

  /** A second "select all" click after one that selected everything clears the selection again. */
  lemma ToggleAllTwice(selected: seq<RegistrationId>, entries: seq<Entry>)
    requires |selected| != |PaidEntries(entries)|
    ensures ToggleAll(ToggleAll(selected, entries), entries) == []
  {
  }

  /** "Select all" picks every paid registration and nothing else. */
  lemma ToggleAllSelectsPaid(selected: seq<RegistrationId>, entries: seq<Entry>)
    requires |selected| != |PaidEntries(entries)|
    ensures forall id :: id in ToggleAll(selected, entries) <==>
              exists e :: e in entries && IsPaid(e.paid, e.paymentStatus) && e.id == id
  {
    var paid := PaidEntries(entries);
    var r := ToggleAll(selected, entries);
    forall id | id in r
      ensures exists e :: e in entries && IsPaid(e.paid, e.paymentStatus) && e.id == id
    {
      var i :| 0 <= i < |r| && r[i] == id;
      assert paid[i] in paid;
    }
    forall id | exists e :: e in entries && IsPaid(e.paid, e.paymentStatus) && e.id == id
      ensures id in r
    {
      var e :| e in entries && IsPaid(e.paid, e.paymentStatus) && e.id == id;
      assert e in paid;
      var i :| 0 <= i < |paid| && paid[i] == e;
      assert r[i] == id;
    }
  }

  /** The "send to all" checkbox; ticking it also clears the selection. */
  function SetSendToAll(d: Dialog, checked: bool): (d': Dialog)
    ensures d'.sendToAll == checked
    ensures checked ==> d'.selectedIds == []
    ensures !checked ==> d'.selectedIds == d.selectedIds
    ensures d'.isOpen == d.isOpen && d'.isLoading == d.isLoading && d'.result == d.result
  {
    if checked then d.(sendToAll := true, selectedIds := []) else d.(sendToAll := false)
  }

  /** The `registrationIds` field of the posted body. */
  function RequestIds(d: Dialog): Option<seq<RegistrationId>> {
    if d.sendToAll then None else Some(d.selectedIds)
  }

  /** With "send to all" ticked the button waits only for a send in flight. */
  lemma SendToAllEnables(d: Dialog)
    ensures SendEnabled(SetSendToAll(d, true)) <==> !d.isLoading
    ensures |d.selectedIds| == 0 ==> !SendEnabled(SetSendToAll(d, false))
  {
  }

  /** The request the send button posts. */
  function MakeRequest(d: Dialog, workshopId: WorkshopId): (r: SendReminder.Request)
    ensures r.workshopId == Some(workshopId)
    ensures SendReminder.Explicit(r.registrationIds) <==> !d.sendToAll && |d.selectedIds| > 0
    ensures !d.sendToAll ==> r.registrationIds == Some(d.selectedIds)
  {
    SendReminder.Request(Some(workshopId), RequestIds(d))
  }

  /** The send button: disabled while loading, or with nothing selected unless "send to all" is ticked. */
  function SendEnabled(d: Dialog): (enabled: bool)
    ensures enabled <==> !d.isLoading && (d.sendToAll || |d.selectedIds| > 0)
    ensures enabled ==> !d.isLoading
    ensures enabled && !d.sendToAll ==> SendReminder.Explicit(RequestIds(d))
    ensures !d.isLoading && d.sendToAll ==> enabled
  {
    !d.isLoading && (d.sendToAll || |d.selectedIds| > 0)
  }

  /** Opening or closing is ignored while a send is in flight; closing drops the last result. */
  function OpenChange(d: Dialog, open: bool): (d': Dialog)
    ensures d.isLoading ==> d' == d
    ensures !d.isLoading ==> d'.isOpen == open
    ensures !d.isLoading && !open ==> d'.result == None
    ensures d'.selectedIds == d.selectedIds && d'.sendToAll == d.sendToAll
  {
    if d.isLoading then d
    else if open then d.(isOpen := true)
    else d.(isOpen := false, result := None)
  }

  /** Repeating an open or close changes nothing more. */
  lemma OpenChangeIdempotent(d: Dialog, open: bool)
    ensures OpenChange(OpenChange(d, open), open) == OpenChange(d, open)
  {
  }

  /**
   Whenever the send button is enabled the endpoint picks the recipients the
   dialog shows: with "send to all" the paid registrations, otherwise exactly
   the ticked ones of this workshop (the empty-list fallback is unreachable).
   */
  lemma EnabledRequestSelectsShownRecipients(d: Dialog, db: Db, w: WorkshopId)
    requires SendEnabled(d)
    ensures var req := MakeRequest(d, w);
            d.sendToAll ==> SendReminder.Recipients(db.registrations, w, req.registrationIds)
                              == PaidRegistrationsOf(db.registrations, w)
    ensures var req := MakeRequest(d, w);
            !d.sendToAll ==>
              forall id :: id in SendReminder.Recipients(db.registrations, w, req.registrationIds) <==>
                id in db.registrations && id in d.selectedIds && db.registrations[id].workshopId == w
  {
  }
}
