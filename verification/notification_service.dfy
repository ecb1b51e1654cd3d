/** NotificationService.ts: welcome, password-reset and bulk e-mail
    notifications over an e-mail service, an SMS service and a logger.

    A single send is modelled by the outcome the service would settle with
    if called; the bulk send calls the e-mail service once per rendered
    message, so it takes a Script (the outcome of its k-th call). Every
    operation returns the messages it handed to the services, in order, and
    the log it wrote. */
module NotificationService {
  import opened Results
  import opened Logging
  import Decimal

  datatype Email = Email(to: string, subject: string, body: string)
  datatype Sms = Sms(phone: string, message: string)

  /** The argument of `sendWelcomeNotification`. */
  datatype Newcomer = Newcomer(email: string, phone: Option<string>, name: string)

  /** An element of the `users` argument of `sendBulkNotifications`. */
  datatype Recipient = Recipient(email: string, name: string)

  datatype Welcome<+E> = Welcome(emailSent: bool, smsSent: bool, emails: seq<Email>, texts: seq<Sms>, log: seq<LogEntry<E>>)

  datatype Sent<+E> = Sent(ok: bool, emails: seq<Email>, log: seq<LogEntry<E>>)

  datatype Tally = Tally(successful: nat, failed: nat)

  datatype Bulk<+E> = Bulk(tally: Tally, emails: seq<Email>, log: seq<LogEntry<E>>)

  const WelcomeSubject := "Welcome to our service!"
  const ResetSubject := "Password Reset Request"
  const ResetBody := "Click here to reset your password: https://example.com/reset"

  function WelcomeEmail(user: Newcomer): Email {
    Email(user.email, WelcomeSubject, "Hello " + user.name + ", welcome to our amazing platform!")
  }

  function WelcomeSms(phone: string, name: string): Sms {
    Sms(phone, "Hi " + name + "! Welcome to our service. Reply STOP to unsubscribe.")
  }

  /** `user.phone ? ... : false`: an absent or empty phone number is falsy. */
  predicate HasPhone(user: Newcomer) {
    user.phone.Some? && user.phone.value != ""
  }

  /** Private `sendWelcomeEmail`: the service's answer, or false (with an
      error log) when the service throws. */
  function SendWelcomeEmail<E>(user: Newcomer, reply: Settled<bool, E>): (r: Sent<E>)
    ensures r.ok <==> reply == Resolved(true)
    ensures r.emails == [WelcomeEmail(user)]
    ensures r.log != [] <==> reply.Rejected?
    ensures reply.Rejected? ==> r.log == [Error("Failed to send welcome email", Some(reply.error))]
  {
    match reply
    case Resolved(ok) => Sent(ok, [WelcomeEmail(user)], [])
    case Rejected(e) => Sent(false, [WelcomeEmail(user)], [Error("Failed to send welcome email", Some(e))])
  }

  /** Private `sendWelcomeSms`, with the same "exception means false" rule. */
  function SendWelcomeSms<E>(phone: string, name: string, reply: Settled<bool, E>): (r: (bool, seq<LogEntry<E>>))
    ensures r.0 <==> reply == Resolved(true)
    ensures r.1 != [] <==> reply.Rejected?
    ensures reply.Rejected? ==> r.1 == [Error("Failed to send welcome SMS", Some(reply.error))]
  {
    match reply
    case Resolved(ok) => (ok, [])
    case Rejected(e) => (false, [Error("Failed to send welcome SMS", Some(e))])
  }

  /** `user.phone ? await this.sendWelcomeSms(...) : false`: the flag, the
      SMS handed to the service and the log entries written. */
  function WelcomeSmsIfPhone<E>(user: Newcomer, reply: Settled<bool, E>): (r: (bool, seq<Sms>, seq<LogEntry<E>>))
    ensures r.0 <==> HasPhone(user) && reply == Resolved(true)
    ensures HasPhone(user) ==> r.1 == [WelcomeSms(user.phone.value, user.name)]
    ensures !HasPhone(user) ==> r.1 == [] && r.2 == []
    ensures |r.2| == if HasPhone(user) && reply.Rejected? then 1 else 0
    ensures HasPhone(user) && reply.Rejected? ==> r.2 == [Error("Failed to send welcome SMS", Some(reply.error))]
  {
    if HasPhone(user) then
      var (ok, log) := SendWelcomeSms(user.phone.value, user.name, reply);
      (ok, [WelcomeSms(user.phone.value, user.name)], log)
    else
      (false, [], [])
  }

  /** The last entry of the welcome log: success when either channel
      delivered, failure otherwise. */
  function WelcomeClosing<E>(user: Newcomer, delivered: bool): LogEntry<E> {
    if delivered then Info("Welcome notification sent successfully to " + user.name)
    else Error("Failed to send welcome notification to " + user.name, None)
  }

  /** `sendWelcomeNotification(user)`: always one welcome e-mail; an SMS
      only when the user has a non-empty phone number; a failure of either
      channel is reported in its flag, never thrown. */
  function SendWelcomeNotification<E>(user: Newcomer, emailReply: Settled<bool, E>, smsReply: Settled<bool, E>): (r: Welcome<E>)
    ensures r.emails == [WelcomeEmail(user)]
    ensures HasPhone(user) ==> r.texts == [WelcomeSms(user.phone.value, user.name)]
    ensures !HasPhone(user) ==> r.texts == []
    ensures r.emailSent <==> emailReply == Resolved(true)
    ensures r.smsSent <==> HasPhone(user) && smsReply == Resolved(true)
  {
    var start := [Info("Sending welcome notification to " + user.name)];
    var email := SendWelcomeEmail(user, emailReply);
    var sms := WelcomeSmsIfPhone(user, smsReply);
    Welcome(email.ok, sms.0, email.emails, sms.1, start + email.log + sms.2 + [WelcomeClosing(user, email.ok || sms.0)])
  }

  /** The welcome log opens with the start entry, records each channel's
      exception, and closes with success exactly when a channel delivered. */
  lemma WelcomeLog<E>(user: Newcomer, emailReply: Settled<bool, E>, smsReply: Settled<bool, E>)
    ensures var r := SendWelcomeNotification(user, emailReply, smsReply);
            && |r.log| == 2 + (if emailReply.Rejected? then 1 else 0) + (if HasPhone(user) && smsReply.Rejected? then 1 else 0)
            && r.log[0] == Info("Sending welcome notification to " + user.name)
            && (emailReply.Rejected? ==> r.log[1] == Error("Failed to send welcome email", Some(emailReply.error)))
            && (HasPhone(user) && smsReply.Rejected? ==>
                  r.log[|r.log| - 2] == Error("Failed to send welcome SMS", Some(smsReply.error)))
            && r.log[|r.log| - 1] == WelcomeClosing(user, r.emailSent || r.smsSent)
  {
  }

  /** `sendPasswordResetNotification(email)`: exactly the service's answer,
      or false when the service throws. */
  function SendPasswordResetNotification<E>(email: string, reply: Settled<bool, E>): (r: Sent<E>)
    ensures r.ok <==> reply == Resolved(true)
    ensures r.emails == [Email(email, ResetSubject, ResetBody)]
    ensures |r.log| == 2 && r.log[0] == Info("Sending password reset notification to " + email)
    ensures r.log[1] == (match reply
                         case Resolved(true) => Info("Password reset email sent to " + email)
                         case Resolved(false) => Error("Failed to send password reset email to " + email, None)
                         case Rejected(e) => Error("Password reset email failed", Some(e)))
  {
    var start := Info("Sending password reset notification to " + email);
    var mail := Email(email, ResetSubject, ResetBody);
    match reply
    case Resolved(ok) =>
      var done := if ok then Info("Password reset email sent to " + email)
                  else Error("Failed to send password reset email to " + email, None);
      Sent(ok, [mail], [start, done])
    case Rejected(e) =>
      Sent(false, [mail], [start, Error("Password reset email failed", Some(e))])
  }

  /** The messages the bulk send hands to the e-mail service: one per
      recipient whose body the template renders, in list order. */
  function Mails<E>(users: seq<Recipient>, subject: string, template: string -> Result<string, E>): (r: seq<Email>)
    ensures |r| <= |users|
  {
    if users == [] then []
    else
      var last := users[|users| - 1];
      Mails(users[..|users| - 1], subject, template) +
        match template(last.name)
        case Success(body) => [Email(last.email, subject, body)]
        case Failure(_) => []
  }

  function BulkFailure<E>(user: Recipient, e: E): LogEntry<E> {
    Error("Bulk notification failed for " + user.email, Some(e))
  }

  /** The body of the loop of `sendBulkNotifications`, run over `users`:
      the tally, the e-mails sent and the error entries logged. A recipient
      fails when the template throws, when the service throws or when it
      answers false; the loop carries on with the next recipient. */
  function Dispatch<E>(users: seq<Recipient>, subject: string, template: string -> Result<string, E>, mailer: Script<bool, E>): (r: Bulk<E>)
    ensures r.tally.successful + r.tally.failed == |users|
    ensures |r.emails| <= |users|
  {
    if users == [] then Bulk(Tally(0, 0), [], [])
    else
      var prev := Dispatch(users[..|users| - 1], subject, template, mailer);
      var user := users[|users| - 1];
      var t := prev.tally;
      match template(user.name)
      case Failure(e) =>
        Bulk(Tally(t.successful, t.failed + 1), prev.emails, prev.log + [BulkFailure(user, e)])
      case Success(body) =>
        var emails := prev.emails + [Email(user.email, subject, body)];
        match mailer(|prev.emails|)
        case Resolved(true) => Bulk(Tally(t.successful + 1, t.failed), emails, prev.log)
        case Resolved(false) => Bulk(Tally(t.successful, t.failed + 1), emails, prev.log)
        case Rejected(e) => Bulk(Tally(t.successful, t.failed + 1), emails, prev.log + [BulkFailure(user, e)])
  }

  /** How many of the first n service calls resolved with true. */
  function Delivered<E>(mailer: Script<bool, E>, n: nat): (c: nat)
    ensures c <= n
  {
    if n == 0 then 0 else Delivered(mailer, n - 1) + (if mailer(n - 1) == Resolved(true) then 1 else 0)
  }

  /** Every recipient whose body renders is sent exactly one message, in
      list order, whatever happened to the earlier ones; successes are
      exactly the calls that resolved with true. */
  lemma {:induction false} DispatchSendsEveryone<E>(users: seq<Recipient>, subject: string, template: string -> Result<string, E>, mailer: Script<bool, E>)
    ensures Dispatch(users, subject, template, mailer).emails == Mails(users, subject, template)
    ensures Dispatch(users, subject, template, mailer).tally.successful == Delivered(mailer, |Mails(users, subject, template)|)
    decreases |users|
  {
    if users != [] {
      DispatchSendsEveryone(users[..|users| - 1], subject, template, mailer);
    }
  }

  /** When every body renders, recipient i receives the i-th call, with
      the given subject and its own body. */
  lemma {:induction false} MailsInOrder<E>(users: seq<Recipient>, subject: string, template: string -> Result<string, E>)
    requires forall i :: 0 <= i < |users| ==> template(users[i].name).Success?
    ensures |Mails(users, subject, template)| == |users|
    ensures forall i :: 0 <= i < |users| ==>
              Mails(users, subject, template)[i] == Email(users[i].email, subject, template(users[i].name).value)
    decreases |users|
  {
    if users != [] {
      var init := users[..|users| - 1];
      assert forall i :: 0 <= i < |init| ==> init[i] == users[i];
      MailsInOrder(init, subject, template);
    }
  }

  /** A recipient whose body renders but whose service call throws is
      logged with its address and the error. Its call is the one after the
      messages of the recipients before it, whatever happened to them. */
  lemma {:induction false} DispatchLogsThrownFailures<E>(users: seq<Recipient>, subject: string, template: string -> Result<string, E>, mailer: Script<bool, E>, i: nat)
    requires i < |users|
    requires template(users[i].name).Success?
    requires mailer(|Mails(users[..i], subject, template)|).Rejected?
    ensures BulkFailure(users[i], mailer(|Mails(users[..i], subject, template)|).error) in Dispatch(users, subject, template, mailer).log
    decreases |users|
  {
    var init := users[..|users| - 1];
    if i < |init| {
      assert init[..i] == users[..i];
      DispatchLogsThrownFailures(init, subject, template, mailer, i);
    } else {
      assert init == users[..i];
      DispatchSendsEveryone(init, subject, template, mailer);
    }
  }

  /** A recipient whose template throws is logged with its address and
      the template's error. */
  lemma {:induction false} DispatchLogsTemplateFailures<E>(users: seq<Recipient>, subject: string, template: string -> Result<string, E>, mailer: Script<bool, E>, i: nat)
    requires i < |users|
    requires template(users[i].name).Failure?
    ensures BulkFailure(users[i], template(users[i].name).error) in Dispatch(users, subject, template, mailer).log
    decreases |users|
  {
    var init := users[..|users| - 1];
    if i < |init| {
      assert init[i] == users[i];
      DispatchLogsTemplateFailures(init, subject, template, mailer, i);
    }
  }

  /** How many recipients' templates throw. */
  function TemplateFailures<E>(users: seq<Recipient>, template: string -> Result<string, E>): nat {
    if users == [] then 0
    else TemplateFailures(users[..|users| - 1], template) + (if template(users[|users| - 1].name).Failure? then 1 else 0)
  }

  /** How many of the first n service calls threw. */
  function Rejections<E>(mailer: Script<bool, E>, n: nat): nat {
    if n == 0 then 0 else Rejections(mailer, n - 1) + (if mailer(n - 1).Rejected? then 1 else 0)
  }

  /** The error log holds one entry per thrown template and one per thrown
      service call, and nothing else: a `false` answer logs nothing. */
  lemma {:induction false} DispatchLogCount<E>(users: seq<Recipient>, subject: string, template: string -> Result<string, E>, mailer: Script<bool, E>)
    ensures |Dispatch(users, subject, template, mailer).log| ==
              TemplateFailures(users, template) + Rejections(mailer, |Mails(users, subject, template)|)
    decreases |users|
  {
    if users != [] {
      var init := users[..|users| - 1];
      DispatchLogCount(init, subject, template, mailer);
      DispatchSendsEveryone(init, subject, template, mailer);
    }
  }

  /** `sendBulkNotifications(users, subject, template)`: the source's loop,
      bracketed by the start and completion log entries. */
  method SendBulkNotifications<E>(users: seq<Recipient>, subject: string, template: string -> Result<string, E>, mailer: Script<bool, E>)
    returns (tally: Tally, emails: seq<Email>, log: seq<LogEntry<E>>)
    ensures tally.successful + tally.failed == |users|
    ensures tally == Dispatch(users, subject, template, mailer).tally
    ensures emails == Dispatch(users, subject, template, mailer).emails
    ensures log == [Info("Starting bulk notification to " + Decimal.NatToString(|users|) + " users")]
                   + Dispatch(users, subject, template, mailer).log
                   + [Info("Bulk notification completed: " + Decimal.NatToString(tally.successful) + " successful, "
                           + Decimal.NatToString(tally.failed) + " failed")]
  {
    var successful, failed := 0, 0;
    var errors: seq<LogEntry<E>> := [];
    emails := [];
    var i := 0;
    while i < |users|
      invariant i <= |users|
      invariant Dispatch(users[..i], subject, template, mailer) == Bulk(Tally(successful, failed), emails, errors)
    {
      var user := users[i];
      assert users[..i + 1][..i] == users[..i];
      match template(user.name) {
        case Failure(e) =>
          failed := failed + 1;
          errors := errors + [BulkFailure(user, e)];
        case Success(body) =>
          var reply := mailer(|emails|);
          emails := emails + [Email(user.email, subject, body)];
          match reply {
            case Resolved(ok) =>
              if ok {
                successful := successful + 1;
              } else {
                failed := failed + 1;
              }
            case Rejected(e) =>
              failed := failed + 1;
              errors := errors + [BulkFailure(user, e)];
          }
      }
      i := i + 1;
    }
    assert users[..i] == users;
    tally := Tally(successful, failed);
    log := [Info("Starting bulk notification to " + Decimal.NatToString(|users|) + " users")] + errors
           + [Info("Bulk notification completed: " + Decimal.NatToString(successful) + " successful, "
                   + Decimal.NatToString(failed) + " failed")];
  }

  /** Three recipients, the second call rejected: two successes, one
      failure, three messages in order, and an error naming the second
      recipient's address. */
  lemma BulkExample()
    ensures var users := [Recipient("user1@example.com", "User 1"),
                          Recipient("user2@example.com", "User 2"),
                          Recipient("user3@example.com", "User 3")];
            var template := (name: string) => Success("Hello " + name + "!");
            var mailer := (k: nat) => if k == 1 then Rejected("Failed") else Resolved(true);
            var r := Dispatch<string>(users, "Newsletter", template, mailer);
            && r.tally == Tally(2, 1)
            && r.emails == [Email("user1@example.com", "Newsletter", "Hello User 1!"),
                            Email("user2@example.com", "Newsletter", "Hello User 2!"),
                            Email("user3@example.com", "Newsletter", "Hello User 3!")]
            && Error("Bulk notification failed for user2@example.com", Some("Failed")) in r.log
  {
    var users := [Recipient("user1@example.com", "User 1"),
                  Recipient("user2@example.com", "User 2"),
                  Recipient("user3@example.com", "User 3")];
    var template: string -> Result<string, string> := (name: string) => Success("Hello " + name + "!");
    var mailer: Script<bool, string> := (k: nat) => if k == 1 then Rejected("Failed") else Resolved(true);
    assert "Hello " + "User 1" + "!" == "Hello User 1!";
    assert "Hello " + "User 2" + "!" == "Hello User 2!";
    assert "Hello " + "User 3" + "!" == "Hello User 3!";
    assert "Bulk notification failed for " + "user2@example.com" == "Bulk notification failed for user2@example.com";
    assert users[..1][..0] == [];
    assert users[..2][..1] == users[..1];
    assert users[..3][..2] == users[..2];
    assert users[..1][0] == users[0];
    assert template(users[0].name) == Success("Hello User 1!");
    assert mailer(0) == Resolved(true);
    assert Dispatch<string>(users[..1][..0], "Newsletter", template, mailer) == Bulk(Tally(0, 0), [], []);
    var d1 := Dispatch<string>(users[..1], "Newsletter", template, mailer);
    assert d1.emails == [Email("user1@example.com", "Newsletter", "Hello User 1!")];
    assert d1.tally == Tally(1, 0) && d1.log == [];
    var d2 := Dispatch<string>(users[..2], "Newsletter", template, mailer);
    assert d2.tally == Tally(1, 1) && |d2.emails| == 2;
    assert d2.log == [Error("Bulk notification failed for user2@example.com", Some("Failed"))];
    assert users[..3] == users;
  }
}
