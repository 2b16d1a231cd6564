/** The unauthenticated entry points: the public contact form
    (submitContactForm) and public booking (createBookingPublic). Both resolve
    the visitor to a contact, write their rows, and notify the visitor
    best-effort; a notification's outcome never changes the result. */
module Public {
  import opened Common
  import opened Text
  import opened Seqs
  import opened Store
  import opened Contacts
  import opened Integrations
  import Bookings

  // Notifications

  /** The sendEmail/sendSms calls of one notification: an email when an address is
      given and `emailOn`, then an SMS cut to 160 characters when a number is given
      and `smsOn`. */
  function Notifications(email: Option<string>, phone: Option<string>, subject: string, body: string,
                         emailOn: bool, smsOn: bool): (calls: seq<SendOptions>)
    ensures |calls| == (if Present(email) && emailOn then 1 else 0) + (if Present(phone) && smsOn then 1 else 0)
    ensures Present(email) && emailOn ==> calls[0] == EmailOptions(email.value, subject, body, None)
    ensures Present(phone) && smsOn ==>
      calls[|calls| - 1] == SmsOptions(phone.value, Truncate(body, 160)) && |calls[|calls| - 1].body| <= 160
  {
    (if Present(email) && emailOn then [EmailOptions(email.value, subject, body, None)] else [])
    + (if Present(phone) && smsOn then [SmsOptions(phone.value, Truncate(body, 160))] else [])
  }

  /** A send whose result the caller ignores: one log row of the call's kind, and at
      most last_error changed. */
  method SendBestEffort(db: Db, wid: Id, opts: SendOptions, delivery: Delivery, nowMs: nat)
    modifies db`integrationLogs, db`integrations
    ensures |db.integrationLogs| == |old(db.integrationLogs)| + 1
    ensures db.integrationLogs[..|old(db.integrationLogs)|] == old(db.integrationLogs)
    ensures db.integrationLogs[|old(db.integrationLogs)|].kind == opts.Kind()
    ensures db.integrationLogs[|old(db.integrationLogs)|].workspaceId == wid
    ensures SameButLastError(old(db.integrations), db.integrations)
  {
    var _, _ := Send(db, wid, opts, delivery, nowMs);
  }

  /** The calls of `Notifications`, each answered by its own delivery. Every call
      appends one log row of its kind and touches at most last_error. */
  method Notify(db: Db, wid: Id, email: Option<string>, phone: Option<string>, subject: string, body: string,
                emailOn: bool, smsOn: bool, emailDelivery: Delivery, smsDelivery: Delivery, nowMs: nat)
    returns (calls: seq<SendOptions>)
    requires db.Valid()
    modifies db`integrationLogs, db`integrations
    ensures db.Valid()
    ensures calls == Notifications(email, phone, subject, body, emailOn, smsOn)
    ensures |db.integrationLogs| == |old(db.integrationLogs)| + |calls|
    ensures LogsAppended(old(db.integrationLogs), db.integrationLogs, calls, wid)
    ensures SameButLastError(old(db.integrations), db.integrations)
  {
    calls := [];
    ghost var logs0, rows0 := db.integrationLogs, db.integrations;
    if Present(email) && emailOn {
      var opts := EmailOptions(email.value, subject, body, None);
      SendBestEffort(db, wid, opts, emailDelivery, nowMs);
      calls := [opts];
    }
    ghost var logs1, rows1 := db.integrationLogs, db.integrations;
    assert SameButLastError(rows0, rows1) by {
      if rows1 == rows0 {
        assert forall i :: 0 <= i < |rows0| ==> rows0[i] == rows0[i].(lastError := rows0[i].lastError);
      }
    }
    if Present(phone) && smsOn {
      var opts := SmsOptions(phone.value, Truncate(body, 160));
      SendBestEffort(db, wid, opts, smsDelivery, nowMs);
      calls := calls + [opts];
      assert db.integrationLogs[..|logs0|] == logs1[..|logs0|];
      SameButLastErrorTransitive(rows0, rows1, db.integrations);
    }
  }

  // submitContactForm

  const DefaultWelcome: string := "Thanks for reaching out! We'll get back to you soon."
  const WelcomeSubject: string := "We received your message"

  /** The contact form's welcome template, or the default when the workspace has no form.
      A form saved without a template holds "", which is kept. */
  function WelcomeTemplate(forms: seq<ContactForm>, wid: Id): (t: string)
    ensures (forall f :: f in forms ==> f.workspaceId != wid) ==> t == DefaultWelcome
    ensures (exists f :: f in forms && f.workspaceId == wid) ==>
      exists f :: f in forms && f.workspaceId == wid && t == f.welcomeTemplate
  {
    match FirstMatch(forms, (f: ContactForm) => f.workspaceId == wid)
    case Some(f) => f.welcomeTemplate
    case None => DefaultWelcome
  }

  const Placeholder: string := "{name}"

  /** `template.replace(/\{name\}/g, name ?? "there")`: every placeholder becomes the
      name, with JavaScript's replacement patterns ("$&", "$$", "$`", "$'") expanded
      in it; a name without "$" is inserted exactly as written. */
  function WelcomeBody(template: string, name: Option<string>): (r: string)
    ensures '$' !in name.GetOr("there") ==> r == ReplaceAll(template, Placeholder, name.GetOr("there"))
  {
    var n := name.GetOr("there");
    var r := ReplaceJs("", template, Placeholder, n);
    if '$' in n then r
    else
      ReplaceJsLiteral("", template, Placeholder, n);
      r
  }

  /** "{name}" overlaps no copy of itself, so a text free of it gains no occurrence
      before a placeholder appended to it. */
  lemma NoPlaceholderBefore(s: string, t: string)
    requires !Contains(s, Placeholder)
    ensures forall i :: 0 <= i < |s| ==> !OccursAt(s + Placeholder + t, Placeholder, i)
  {
    var body := s + Placeholder + t;
    forall i | 0 <= i < |s| ensures !OccursAt(body, Placeholder, i) {
      if i + 6 <= |s| {
        assert body[i..i + 6] == s[i..i + 6];
        assert !OccursAt(s, Placeholder, i);
      } else if i + 6 <= |body| {
        // the '{' that opens the appended placeholder would sit inside this match
        assert body[i..i + 6][|s| - i] == '{';
        assert Placeholder[|s| - i] != '{';
      }
    }
  }

  /** A template without the placeholder is sent as written, whatever the name. */
  lemma WelcomeWithoutPlaceholder(template: string, name: Option<string>)
    requires !Contains(template, Placeholder)
    ensures WelcomeBody(template, name) == template
  {
    var n := name.GetOr("there");
    forall i | 0 <= i < |template| ensures !OccursAt(template, Placeholder, i) {
    }
    ReplaceJsSkips("", template, |template|, Placeholder, n);
    assert template[..|template|] == template;
  }

  /** The first placeholder is replaced by the expansion of the name for that match,
      which sees the text before and after it; the text before it is copied and the
      rest is replaced on. */
  lemma WelcomeFirstPlaceholder(s: string, t: string, name: Option<string>)
    requires !Contains(s, Placeholder)
    ensures WelcomeBody(s + Placeholder + t, name) ==
      s + Expand(name.GetOr("there"), Placeholder, s, t) + ReplaceJs(s + Placeholder, t, Placeholder, name.GetOr("there"))
  {
    var n := name.GetOr("there");
    var body := s + Placeholder + t;
    calc {
      WelcomeBody(body, name);
      ReplaceJs("", body, Placeholder, n);
      { NoPlaceholderBefore(s, t);
        ReplaceJsSkips("", body, |s|, Placeholder, n); }
      body[..|s|] + ReplaceJs("" + body[..|s|], body[|s|..], Placeholder, n);
      { assert body[..|s|] == s && "" + s == s && body[|s|..] == Placeholder + t; }
      s + ReplaceJs(s, Placeholder + t, Placeholder, n);
      { ReplaceJsAtMatch(s, Placeholder, t, n); }
      s + (Expand(n, Placeholder, s, t) + ReplaceJs(s + Placeholder, t, Placeholder, n));
    }
  }

  /** For a name without "$", the first placeholder becomes the name (or "there") and
      the rest of the template is handled alike. */
  lemma WelcomeSplitsAtPlaceholder(s: string, t: string, name: Option<string>)
    requires !Contains(s, Placeholder) && '$' !in name.GetOr("there")
    ensures WelcomeBody(s + Placeholder + t, name) == s + name.GetOr("there") + WelcomeBody(t, name)
  {
    WelcomeFirstPlaceholder(s, t, name);
    ReplaceJsLiteral(s + Placeholder, t, Placeholder, name.GetOr("there"));
  }

  /** The placeholder is replaced, and an anonymous visitor is "there". */
  lemma WelcomeBodyExample()
    ensures WelcomeBody("{name}!", None) == "there!"
  {
    var t := "{name}!";
    assert t[..6] == Placeholder && t[6..] == "!";
    assert ReplaceAll(t, Placeholder, "there") == "there" + ReplaceAll("!", Placeholder, "there");
  }

  /** A name "$&" puts the matched placeholder itself back into the message. */
  lemma WelcomeDollarAmpersand()
    ensures WelcomeBody("Hi {name}", Some("$&")) == "Hi {name}"
  {
    assert !Contains("Hi ", Placeholder);
    assert "Hi " + Placeholder + "" == "Hi {name}";
    WelcomeFirstPlaceholder("Hi ", "", Some("$&"));
  }

  /** A name "A$$B" arrives as "A$B": "$$" stands for one "$". */
  lemma WelcomeDoubleDollar()
    ensures WelcomeBody("{name}", Some("A$$B")) == "A$B"
  {
    assert !Contains("", Placeholder);
    assert "" + Placeholder + "" == "{name}";
    WelcomeFirstPlaceholder("", "", Some("A$$B"));
    assert Expand("A$$B", Placeholder, "", "") == "A" + Expand("$$B", Placeholder, "", "");
    assert Expand("$$B", Placeholder, "", "") == "$" + Expand("B", Placeholder, "", "");
  }

  /** The welcome message of a workspace whose form was saved without a template is empty. */
  lemma EmptyTemplateSendsEmptyWelcome(forms: seq<ContactForm>, wid: Id, name: Option<string>)
    requires exists f :: f in forms && f.workspaceId == wid
    requires forall f :: f in forms && f.workspaceId == wid ==> f.welcomeTemplate == ""
    ensures WelcomeBody(WelcomeTemplate(forms, wid), name) == ""
  {
  }

  /** The inbound message a contact-form submission stores. */
  function InboundMessage(id: Id, wid: Id, conversationId: Id, message: Option<string>, now: Time): Message {
    Message(id, wid, conversationId, In, Email, message.GetOr(""), None, false, None, now)
  }

  /** `UPDATE conversations SET updated_at = NOW() WHERE id = $1`. */
  function TouchConversation(convs: seq<Conversation>, id: Id, now: Time): (r: seq<Conversation>)
    ensures |r| == |convs|
    ensures forall i :: 0 <= i < |r| ==> r[i] == convs[i].(updatedAt := r[i].updatedAt)
    ensures forall i :: 0 <= i < |r| ==> if convs[i].id == id then r[i].updatedAt == now else r[i] == convs[i]
  {
    seq(|convs|, i requires 0 <= i < |convs| => if convs[i].id == id then convs[i].(updatedAt := now) else convs[i])
  }

  /** The id the next insert takes after a call that may or may not have inserted. */
  function After(n: nat, inserted: bool): nat {
    if inserted then n + 1 else n
  }

  datatype Received = Received(contactId: Id)

  /** The message row and conversation bookkeeping of a submission. */
  method RecordInbound(db: Db, wid: Id, conversationId: Id, message: Option<string>, now: Time)
    requires db.Valid()
    modifies db`messages, db`conversations, db`nextId
    ensures db.Valid()
    ensures db.messages == old(db.messages) + [InboundMessage(old(db.nextId), wid, conversationId, message, now)]
    ensures db.conversations == TouchConversation(old(db.conversations), conversationId, now)
    ensures db.nextId == old(db.nextId) + 1
  {
    var _ := db.InsertMessage(InboundMessage(0, wid, conversationId, message, now));
    var touched := TouchConversation(db.conversations, conversationId, now);
    assert ConversationsBelow(touched, db.nextId) by {
      forall c | c in touched ensures c.id < db.nextId {
        var i :| 0 <= i < |touched| && touched[i] == c;
        assert db.conversations[i] in db.conversations;
      }
    }
    db.conversations := touched;
  }

  /** The conversation and message rows of a submission by a known contact:
      the contact's conversation (created with id `firstId` if missing), touched,
      and one inbound message in it. */
  ghost predicate InboundRecorded(convs0: seq<Conversation>, msgs0: seq<Message>, convs: seq<Conversation>,
                                  msgs: seq<Message>, wid: Id, contactId: Id, message: Option<string>,
                                  firstId: nat, now: Time)
  {
    var conv := OpenConversation(convs0, wid, contactId, firstId, now);
    && convs == TouchConversation(conv.conversations, conv.id, now)
    && msgs == msgs0 + [InboundMessage(After(firstId, |conv.conversations| > |convs0|), wid, conv.id, message, now)]
  }

  /** The contact's conversation and the inbound message in it. */
  method Inbound(db: Db, wid: Id, contactId: Id, message: Option<string>, now: nat)
    requires db.Valid()
    modifies db`conversations, db`messages, db`nextId
    ensures db.Valid()
    ensures InboundRecorded(old(db.conversations), old(db.messages), db.conversations, db.messages,
                            wid, contactId, message, old(db.nextId), now)
  {
    var conversationId := GetOrCreateConversation(db, wid, contactId, now);
    RecordInbound(db, wid, conversationId, message, now);
  }

  /** What follows the contact resolution: the conversation, the inbound message,
      then the welcome on each connected channel. */
  method Converse(db: Db, w: Workspace, contactId: Id, name: Option<string>, email: Option<string>,
                  phone: Option<string>, message: Option<string>, emailDelivery: Delivery, smsDelivery: Delivery,
                  now: nat)
    returns (calls: seq<SendOptions>)
    requires db.Valid()
    modifies db`conversations, db`messages, db`nextId, db`integrationLogs, db`integrations
    ensures db.Valid()
    ensures InboundRecorded(old(db.conversations), old(db.messages), db.conversations, db.messages,
                            w.id, contactId, message, old(db.nextId), now)
    ensures calls == Notifications(email, phone, WelcomeSubject, WelcomeBody(WelcomeTemplate(db.contactForms, w.id), name),
                                   w.emailConnected, w.smsConnected)
    ensures |db.integrationLogs| == |old(db.integrationLogs)| + |calls|
    ensures LogsAppended(old(db.integrationLogs), db.integrationLogs, calls, w.id)
    ensures SameButLastError(old(db.integrations), db.integrations)
  {
    Inbound(db, w.id, contactId, message, now);
    var body := WelcomeBody(WelcomeTemplate(db.contactForms, w.id), name);
    calls := Notify(db, w.id, email, phone, WelcomeSubject, body, w.emailConnected, w.smsConnected,
                    emailDelivery, smsDelivery, now);
  }

  /** submitContactForm: 404 for an unknown workspace; otherwise resolve the contact
      (its 400 passes through), store one inbound email-channel message in the
      contact's conversation, and send the welcome where the channel is connected. */
  method SubmitContactForm(db: Db, wid: Id, name: Option<string>, email: Option<string>, phone: Option<string>,
                           message: Option<string>, emailDelivery: Delivery, smsDelivery: Delivery, now: nat)
    returns (r: Result<Received>, calls: seq<SendOptions>)
    requires db.Valid()
    modifies db`contacts, db`conversations, db`messages, db`nextId, db`integrationLogs, db`integrations
    ensures db.Valid()
    ensures LogsAppended(old(db.integrationLogs), db.integrationLogs, calls, wid)
    ensures SameButLastError(old(db.integrations), db.integrations)
    ensures FindWorkspace(db.workspaces, wid).None? ==>
      && r == Err(Fail(404, "Workspace not found")) && calls == []
      && db.contacts == old(db.contacts) && db.conversations == old(db.conversations)
      && db.messages == old(db.messages) && db.integrationLogs == old(db.integrationLogs)
      && db.integrations == old(db.integrations) && db.nextId == old(db.nextId)
    ensures FindWorkspace(db.workspaces, wid).Some? ==>
      var resolved := Resolve(old(db.contacts), wid, email, phone, name, old(db.nextId));
      && db.contacts == resolved.contacts
      && (resolved.result.Err? ==>
            && r == Err(resolved.result.error) && calls == []
            && db.conversations == old(db.conversations) && db.messages == old(db.messages)
            && db.integrationLogs == old(db.integrationLogs) && db.integrations == old(db.integrations)
            && db.nextId == old(db.nextId))
      && (resolved.result.Ok? ==>
            var w := FindWorkspace(db.workspaces, wid).value;
            && r == Ok(Received(resolved.result.value.id))
            && InboundRecorded(old(db.conversations), old(db.messages), db.conversations, db.messages,
                               wid, resolved.result.value.id, message,
                               After(old(db.nextId), resolved.result.value.created), now)
            && calls == Notifications(email, phone, WelcomeSubject,
                                      WelcomeBody(WelcomeTemplate(db.contactForms, wid), name),
                                      w.emailConnected, w.smsConnected)
            && |db.integrationLogs| == |old(db.integrationLogs)| + |calls|)
  {
    calls := [];
    var workspace := FindWorkspace(db.workspaces, wid);
    if workspace.None? {
      NothingSent(db.integrationLogs, db.integrations, wid);
      return Err(Fail(404, "Workspace not found")), [];
    }
    ghost var resolved := Resolve(db.contacts, wid, email, phone, name, db.nextId);
    var contact := FindOrCreateContact(db, wid, email, phone, name);
    assert Resolved(contact, db.contacts) == resolved;
    if contact.Err? {
      NothingSent(db.integrationLogs, db.integrations, wid);
      return Err(contact.error), [];
    }
    assert db.nextId == After(old(db.nextId), resolved.result.value.created);
    calls := Converse(db, workspace.value, contact.value.id, name, email, phone, message,
                      emailDelivery, smsDelivery, now);
    r := Ok(Received(contact.value.id));
  }

  // createBookingPublic

  /** `workspace_id = $1 AND (linked_booking_type_id = $2 OR linked_booking_type_id IS NULL)`. */
  predicate FollowsBooking(t: FormTemplate, wid: Id, btid: Id) {
    t.workspaceId == wid && (t.linkedBookingTypeId == Some(btid) || t.linkedBookingTypeId.None?)
  }

  function FollowsBookingOf(wid: Id, btid: Id): FormTemplate -> bool {
    (t: FormTemplate) => FollowsBooking(t, wid, btid)
  }

  function LinkedTemplates(templates: seq<FormTemplate>, wid: Id, btid: Id): seq<FormTemplate> {
    Filter(templates, FollowsBookingOf(wid, btid))
  }

  const WeekMs: int := 7 * DayMs

  /** The pending submissions the loop inserts, one per linked template in query
      order, with ids handed out from `firstId`. */
  function PendingSubmissions(linked: seq<FormTemplate>, wid: Id, bookingId: Id, contactId: Id, firstId: nat,
                              now: Time): (subs: seq<FormSubmission>)
    ensures |subs| == |linked|
  {
    seq(|linked|, i requires 0 <= i < |linked| =>
      FormSubmission(firstId + i, wid, bookingId, linked[i].id, contactId, Pending, None, now + WeekMs, now, None, now))
  }

  predicate TemplateIdsUnique(templates: seq<FormTemplate>) {
    DistinctKeys(templates, (t: FormTemplate) => t.id)
  }

  /** Every submission the fan-out creates is pending, due a week from now, for
      this booking and contact, and follows from a template linked to the booking. */
  lemma PendingSubmissionsShape(templates: seq<FormTemplate>, wid: Id, btid: Id, bookingId: Id, contactId: Id,
                                firstId: nat, now: Time)
    ensures var subs := PendingSubmissions(LinkedTemplates(templates, wid, btid), wid, bookingId, contactId, firstId, now);
      forall s :: s in subs ==>
        && s.status == Pending && s.dueAt == now + WeekMs && s.bookingId == bookingId && s.contactId == contactId
        && s.completedAt.None? && s.data.None?
        && exists t :: t in templates && FollowsBooking(t, wid, btid) && t.id == s.formTemplateId
  {
    var linked := LinkedTemplates(templates, wid, btid);
    var subs := PendingSubmissions(linked, wid, bookingId, contactId, firstId, now);
    forall s | s in subs
      ensures exists t :: t in templates && FollowsBooking(t, wid, btid) && t.id == s.formTemplateId
    {
      var k :| 0 <= k < |subs| && subs[k] == s;
      assert linked[k] in linked;
    }
  }

  /** Each template that follows the booking gets a submission. */
  lemma LinkedTemplatesCovered(templates: seq<FormTemplate>, wid: Id, btid: Id, bookingId: Id, contactId: Id,
                               firstId: nat, now: Time, t: FormTemplate)
    requires t in templates && FollowsBooking(t, wid, btid)
    ensures var subs := PendingSubmissions(LinkedTemplates(templates, wid, btid), wid, bookingId, contactId, firstId, now);
      exists s :: s in subs && s.formTemplateId == t.id
  {
    var linked := LinkedTemplates(templates, wid, btid);
    var subs := PendingSubmissions(linked, wid, bookingId, contactId, firstId, now);
    assert t in linked;
    var k :| 0 <= k < |linked| && linked[k] == t;
    assert subs[k] in subs;
  }

  /** With template ids unique, no template gets two submissions, and a template
      that does not follow the booking gets none. */
  lemma OnePendingPerLinkedTemplate(templates: seq<FormTemplate>, wid: Id, btid: Id, bookingId: Id, contactId: Id,
                                    firstId: nat, now: Time)
    requires TemplateIdsUnique(templates)
    ensures var subs := PendingSubmissions(LinkedTemplates(templates, wid, btid), wid, bookingId, contactId, firstId, now);
      && (forall i, j :: 0 <= i < j < |subs| ==> subs[i].formTemplateId != subs[j].formTemplateId)
      && (forall t, s :: t in templates && !FollowsBooking(t, wid, btid) && s in subs ==> s.formTemplateId != t.id)
  {
    var key := (t: FormTemplate) => t.id;
    var linked := LinkedTemplates(templates, wid, btid);
    var subs := PendingSubmissions(linked, wid, bookingId, contactId, firstId, now);
    FilterKeepsDistinct(templates, FollowsBookingOf(wid, btid), key);
    forall i, j | 0 <= i < j < |subs| ensures subs[i].formTemplateId != subs[j].formTemplateId {
      assert key(linked[i]) != key(linked[j]);
    }
    forall t, s | t in templates && !FollowsBooking(t, wid, btid) && s in subs ensures s.formTemplateId != t.id {
      var k :| 0 <= k < |subs| && subs[k] == s;
      assert linked[k] in linked;
      var a :| 0 <= a < |templates| && templates[a] == t;
      var b :| 0 <= b < |templates| && templates[b] == linked[k];
      assert a != b;
      assert key(templates[a]) != key(templates[b]);
    }
  }

  /** The insert loop over the linked templates. */
  method InsertPending(db: Db, linked: seq<FormTemplate>, wid: Id, bookingId: Id, contactId: Id, now: Time)
    requires db.Valid()
    modifies db`submissions, db`nextId
    ensures db.Valid()
    ensures db.submissions ==
      old(db.submissions) + PendingSubmissions(linked, wid, bookingId, contactId, old(db.nextId), now)
    ensures db.nextId == old(db.nextId) + |linked|
  {
    for k := 0 to |linked|
      invariant db.Valid()
      invariant db.nextId == old(db.nextId) + k
      invariant db.submissions ==
        old(db.submissions) + PendingSubmissions(linked[..k], wid, bookingId, contactId, old(db.nextId), now)
    {
      var _ := db.InsertSubmission(
        FormSubmission(0, wid, bookingId, linked[k].id, contactId, Pending, None, now + WeekMs, now, None, now));
      assert PendingSubmissions(linked[..k + 1], wid, bookingId, contactId, old(db.nextId), now) ==
        PendingSubmissions(linked[..k], wid, bookingId, contactId, old(db.nextId), now)
        + [FormSubmission(old(db.nextId) + k, wid, bookingId, linked[k].id, contactId, Pending, None, now + WeekMs, now, None, now)];
    }
    assert linked[..|linked|] == linked;
  }

  /** The confirmation text; the rendered local date of the booking is an input. */
  function ConfirmMessage(typeName: string, renderedDate: string): string {
    "Your booking for " + typeName + " on " + renderedDate + " is confirmed."
  }

  datatype BookingCreated = BookingCreated(bookingId: Id, contactId: Id)

  /** The booking row the public form inserts: confirmed, at the requested time. */
  function PublicBooking(id: Id, wid: Id, contactId: Id, btid: Id, scheduledAt: Time, notes: Option<string>): Booking {
    Booking(id, wid, contactId, btid, scheduledAt, Confirmed, notes)
  }

  /** The workspace gate: 404 for an unknown workspace, 400 unless it is active. */
  function BookingGate(workspaces: seq<Workspace>, wid: Id): (r: Option<AppError>)
    ensures r.None? <==> FindWorkspace(workspaces, wid).Some? && FindWorkspace(workspaces, wid).value.status == Active
    ensures FindWorkspace(workspaces, wid).None? ==> r == Some(Fail(404, "Workspace not found"))
    ensures FindWorkspace(workspaces, wid).Some? && FindWorkspace(workspaces, wid).value.status != Active ==>
      r == Some(Fail(400, "Bookings are not open"))
  {
    match FindWorkspace(workspaces, wid)
    case None => Some(Fail(404, "Workspace not found"))
    case Some(w) => if w.status != Active then Some(Fail(400, "Bookings are not open")) else None
  }

  /** What follows the booking insert, as values: the result, the confirmations
      and the pending submissions it adds. */
  datatype FollowUpOutcome = FollowUpOutcome(result: Result<BookingCreated>, calls: seq<SendOptions>,
                                             pending: seq<FormSubmission>)

  /** 400 "Invalid booking type" when the type is not in the workspace (the booking
      stays, nothing else happens); otherwise both confirmations and one pending
      submission per linked template, numbered on from the booking's own id. */
  function FollowUpOf(types: seq<BookingType>, templates: seq<FormTemplate>, wid: Id, btid: Id, bookingId: Id,
                      contactId: Id, email: Option<string>, phone: Option<string>, renderedDate: string,
                      now: Time): FollowUpOutcome
  {
    match Bookings.FindBookingType(types, wid, btid)
    case None => FollowUpOutcome(Err(Fail(400, "Invalid booking type")), [], [])
    case Some(bt) =>
      FollowUpOutcome(Ok(BookingCreated(bookingId, contactId)),
                      Notifications(email, phone, "Booking confirmed", ConfirmMessage(bt.name, renderedDate), true, true),
                      PendingSubmissions(LinkedTemplates(templates, wid, btid), wid, bookingId, contactId, bookingId + 1, now))
  }

  /** The part of createBookingPublic after the booking row is written. */
  method FollowUp(db: Db, wid: Id, btid: Id, bookingId: Id, contactId: Id, email: Option<string>,
                  phone: Option<string>, renderedDate: string, emailDelivery: Delivery, smsDelivery: Delivery, now: nat)
    returns (r: Result<BookingCreated>, calls: seq<SendOptions>)
    requires db.Valid() && db.nextId == bookingId + 1
    modifies db`submissions, db`nextId, db`integrationLogs, db`integrations
    ensures db.Valid()
    ensures var o := FollowUpOf(db.bookingTypes, db.formTemplates, wid, btid, bookingId, contactId, email, phone,
                                renderedDate, now);
      && r == o.result && calls == o.calls
      && db.submissions == old(db.submissions) + o.pending
      && |db.integrationLogs| == |old(db.integrationLogs)| + |calls|
    ensures LogsAppended(old(db.integrationLogs), db.integrationLogs, calls, wid)
    ensures SameButLastError(old(db.integrations), db.integrations)
    ensures Bookings.FindBookingType(db.bookingTypes, wid, btid).None? ==>
      db.integrations == old(db.integrations) && db.nextId == old(db.nextId)
  {
    calls := [];
    var bt := Bookings.FindBookingType(db.bookingTypes, wid, btid);
    if bt.None? {
      NothingSent(db.integrationLogs, db.integrations, wid);
      return Err(Fail(400, "Invalid booking type")), [];
    }
    var text := ConfirmMessage(bt.value.name, renderedDate);
    calls := Notify(db, wid, email, phone, "Booking confirmed", text, true, true, emailDelivery, smsDelivery, now);
    InsertPending(db, LinkedTemplates(db.formTemplates, wid, btid), wid, bookingId, contactId, now);
    r := Ok(BookingCreated(bookingId, contactId));
  }

  /** The confirmed booking row with the next id, then the follow-up for it. */
  method Book(db: Db, wid: Id, btid: Id, contactId: Id, scheduledAt: Time, email: Option<string>,
              phone: Option<string>, notes: Option<string>, renderedDate: string,
              emailDelivery: Delivery, smsDelivery: Delivery, now: nat)
    returns (r: Result<BookingCreated>, calls: seq<SendOptions>)
    requires db.Valid()
    modifies db`bookings, db`submissions, db`nextId, db`integrationLogs, db`integrations
    ensures db.Valid()
    ensures var bookingId := old(db.nextId);
      var o := FollowUpOf(db.bookingTypes, db.formTemplates, wid, btid, bookingId, contactId, email, phone,
                          renderedDate, now);
      && db.bookings == old(db.bookings) + [PublicBooking(bookingId, wid, contactId, btid, scheduledAt, notes)]
      && r == o.result && calls == o.calls
      && db.submissions == old(db.submissions) + o.pending
      && (o.result.Err? ==> db.integrations == old(db.integrations) && db.nextId == bookingId + 1)
    ensures LogsAppended(old(db.integrationLogs), db.integrationLogs, calls, wid)
    ensures SameButLastError(old(db.integrations), db.integrations)
  {
    var booking := db.InsertBooking(PublicBooking(0, wid, contactId, btid, scheduledAt, notes));
    r, calls := FollowUp(db, wid, btid, booking.id, contactId, email, phone, renderedDate,
                         emailDelivery, smsDelivery, now);
  }

  /** createBookingPublic: the workspace gate, the contact, the confirmed booking,
      then (too late to undo the booking) the booking-type check, the confirmations,
      and one pending submission per linked template. `renderedDate` stands for the
      locale rendering of the time. */
  method CreateBookingPublic(db: Db, wid: Id, btid: Id, scheduledAt: Time, name: string, email: Option<string>,
                             phone: Option<string>, notes: Option<string>, renderedDate: string,
                             emailDelivery: Delivery, smsDelivery: Delivery, now: nat)
    returns (r: Result<BookingCreated>, calls: seq<SendOptions>)
    requires db.Valid()
    modifies db`contacts, db`bookings, db`submissions, db`nextId, db`integrationLogs, db`integrations
    ensures db.Valid()
    ensures LogsAppended(old(db.integrationLogs), db.integrationLogs, calls, wid)
    ensures SameButLastError(old(db.integrations), db.integrations)
    ensures BookingGate(db.workspaces, wid).Some? ==>
      && r == Err(BookingGate(db.workspaces, wid).value) && calls == []
      && db.contacts == old(db.contacts) && db.bookings == old(db.bookings)
      && db.submissions == old(db.submissions) && db.integrationLogs == old(db.integrationLogs)
      && db.integrations == old(db.integrations) && db.nextId == old(db.nextId)
    ensures BookingGate(db.workspaces, wid).None? ==>
      var resolved := Resolve(old(db.contacts), wid, email, phone, Some(name), old(db.nextId));
      && db.contacts == resolved.contacts
      && (resolved.result.Err? ==>
            && r == Err(resolved.result.error) && calls == []
            && db.bookings == old(db.bookings) && db.submissions == old(db.submissions)
            && db.integrationLogs == old(db.integrationLogs) && db.integrations == old(db.integrations)
            && db.nextId == old(db.nextId))
      && (resolved.result.Ok? ==>
            var contactId := resolved.result.value.id;
            var bookingId := After(old(db.nextId), resolved.result.value.created);
            var o := FollowUpOf(db.bookingTypes, db.formTemplates, wid, btid, bookingId, contactId, email, phone,
                                renderedDate, now);
            && db.bookings == old(db.bookings) + [PublicBooking(bookingId, wid, contactId, btid, scheduledAt, notes)]
            && r == o.result && calls == o.calls
            && db.submissions == old(db.submissions) + o.pending
            && |db.integrationLogs| == |old(db.integrationLogs)| + |calls|
            && (o.result.Err? ==> db.integrations == old(db.integrations) && db.nextId == bookingId + 1))
  {
    calls := [];
    var gate := BookingGate(db.workspaces, wid);
    if gate.Some? {
      NothingSent(db.integrationLogs, db.integrations, wid);
      return Err(gate.value), [];
    }
    ghost var resolved := Resolve(db.contacts, wid, email, phone, Some(name), db.nextId);
    var contact := FindOrCreateContact(db, wid, email, phone, Some(name));
    assert Resolved(contact, db.contacts) == resolved;
    if contact.Err? {
      NothingSent(db.integrationLogs, db.integrations, wid);
      return Err(contact.error), [];
    }
    assert db.nextId == After(old(db.nextId), resolved.result.value.created);
    r, calls := Book(db, wid, btid, contact.value.id, scheduledAt, email, phone, notes, renderedDate,
                     emailDelivery, smsDelivery, now);
  }
}
