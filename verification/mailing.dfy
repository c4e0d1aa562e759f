/**
 Best-effort notification fan-out shared by the reminder and cancellation
 endpoints: one send attempt per recipient, all awaited together; a send
 that throws is counted as failed and nothing is retried or rolled back.
 The mail transport is the environment's `delivered` (true when the send did
 not throw).
 */
module Mailing {
  import opened Schema

  /** The recipients whose send went through. */
  function Delivered(recipients: set<RegistrationId>, delivered: RegistrationId -> bool): (ok: set<RegistrationId>)
    ensures ok <= recipients
    ensures forall id :: id in ok <==> id in recipients && delivered(id)
  {
    set id | id in recipients && delivered(id)
  }

  /** The recipients whose send threw. */
  function Failed(recipients: set<RegistrationId>, delivered: RegistrationId -> bool): (bad: set<RegistrationId>)
    ensures bad <= recipients
    ensures forall id :: id in bad <==> id in recipients && !delivered(id)
  {
    set id | id in recipients && !delivered(id)
  }

  /** Every attempt is either a success or a failure: the two counts add up to the recipients. */
  lemma TallyAddsUp(recipients: set<RegistrationId>, delivered: RegistrationId -> bool)
    ensures |Delivered(recipients, delivered)| + |Failed(recipients, delivered)| == |recipients|
    ensures |Delivered(recipients, delivered)| <= |recipients|
  {
    var ok, bad := Delivered(recipients, delivered), Failed(recipients, delivered);
    assert ok + bad == recipients;
    assert ok * bad == {};
  }

  /** `"<prefix>: <title>"`, the subject line of a notification about one workshop. */
  function Subject(prefix: string, title: string): (s: string)
    ensures |s| == |prefix| + |title|
    ensures s[..|prefix|] == prefix && s[|prefix|..] == title
  {
    prefix + title
  }

  /** The subject names the workshop unambiguously: equal subjects mean equal titles. */
  lemma SubjectInjective(prefix: string, a: string, b: string)
    requires Subject(prefix, a) == Subject(prefix, b)
    ensures a == b
  {
    assert a == Subject(prefix, a)[|prefix|..];
  }

  /** The cancellation e-mail's subject. */
  function CancellationSubject(title: string): string {
    Subject("CANCELED: ", title)
  }

  /** The reminder e-mail's subject. */
  function ReminderSubject(title: string): string {
    Subject("REMINDER: ", title)
  }

  /** A cancellation and a reminder are never confused by subject. */
  lemma SubjectsDiffer(a: string, b: string)
    ensures CancellationSubject(a) != ReminderSubject(b)
  {
    assert CancellationSubject(a)[0] == 'C';
    assert ReminderSubject(b)[0] == 'R';
  }
}
