/** The forms service: post-booking form templates, the submissions sent out
    for them, and the public completion of a submission. */
module Forms {
  import opened Common
  import opened Seqs
  import opened Store

  // ---------------------------------------------------------------------
  // createFormTemplate
  // ---------------------------------------------------------------------

  /** createFormTemplate: a fresh template in the workspace; `fields` defaults to the
      empty list and the description and the linked booking type to null. */
  method CreateFormTemplate(db: Db, wid: Id, name: string, description: Option<string>,
                            fields: Option<seq<FormField>>, linkedBookingTypeId: Option<Id>)
    returns (created: FormTemplate)
    requires db.Valid()
    modifies db`formTemplates, db`nextId
    ensures db.Valid()
    ensures created == FormTemplate(old(db.nextId), wid, name, description, fields.GetOr([]), linkedBookingTypeId)
    ensures db.formTemplates == old(db.formTemplates) + [created]
    ensures forall t :: t in old(db.formTemplates) ==> t.id != created.id
  {
    created := db.InsertFormTemplate(FormTemplate(0, wid, name, description, fields.GetOr([]), linkedBookingTypeId));
  }

  // ---------------------------------------------------------------------
  // listFormSubmissions
  // ---------------------------------------------------------------------

  predicate HasBooking(bookings: seq<Booking>, id: Id) {
    exists b :: b in bookings && b.id == id
  }

  predicate HasTemplate(templates: seq<FormTemplate>, id: Id) {
    exists t :: t in templates && t.id == id
  }

  /** The WHERE clause of listFormSubmissions, with its inner joins on the
      contact, the booking and the template; an absent status is no filter. */
  predicate Listed(s: FormSubmission, contacts: seq<Contact>, bookings: seq<Booking>, templates: seq<FormTemplate>,
                   wid: Id, status: Option<SubmissionStatus>)
  {
    && s.workspaceId == wid
    && HasContact(contacts, s.contactId)
    && HasBooking(bookings, s.bookingId)
    && HasTemplate(templates, s.formTemplateId)
    && (status.Some? ==> s.status == status.value)
  }

  /** ORDER BY created_at DESC. */
  predicate CreatedNoEarlier(a: FormSubmission, b: FormSubmission) {
    a.createdAt >= b.createdAt
  }

  /** listFormSubmissions: the workspace's joined submissions, newest first. */
  function ListFormSubmissions(subs: seq<FormSubmission>, contacts: seq<Contact>, bookings: seq<Booking>,
                               templates: seq<FormTemplate>, wid: Id, status: Option<SubmissionStatus>)
    : (r: seq<FormSubmission>)
    ensures forall s :: s in r <==> s in subs && Listed(s, contacts, bookings, templates, wid, status)
    ensures forall s :: multiset(r)[s] == if Listed(s, contacts, bookings, templates, wid, status) then multiset(subs)[s] else 0
    ensures SortedBy(r, CreatedNoEarlier)
  {
    var rows := Filter(subs, (s: FormSubmission) => Listed(s, contacts, bookings, templates, wid, status));
    var r := SortBy(rows, CreatedNoEarlier);
    assert forall x :: x in r <==> x in multiset(r);
    assert forall x :: x in rows <==> x in multiset(rows);
    r
  }

  /** The status filter only narrows the list: the filtered list holds exactly the
      rows of the unfiltered one that have that status, as often. */
  lemma StatusFilterNarrows(subs: seq<FormSubmission>, contacts: seq<Contact>, bookings: seq<Booking>,
                            templates: seq<FormTemplate>, wid: Id, status: SubmissionStatus)
    ensures var all := ListFormSubmissions(subs, contacts, bookings, templates, wid, None);
            var some := ListFormSubmissions(subs, contacts, bookings, templates, wid, Some(status));
            forall s :: multiset(some)[s] == if s.status == status then multiset(all)[s] else 0
  {
  }

  // ---------------------------------------------------------------------
  // getFormSubmission
  // ---------------------------------------------------------------------

  /** The WHERE clause of getFormSubmission: the id in the workspace, the contact and
      template joins, and the caller among the workspace's users. */
  predicate Visible(s: FormSubmission, contacts: seq<Contact>, templates: seq<FormTemplate>,
                    users: seq<WorkspaceUser>, wid: Id, uid: Id, sid: Id)
  {
    && s.workspaceId == wid && s.id == sid
    && HasContact(contacts, s.contactId)
    && HasTemplate(templates, s.formTemplateId)
    && IsMember(users, wid, uid)
  }

  function VisibleAs(contacts: seq<Contact>, templates: seq<FormTemplate>, users: seq<WorkspaceUser>,
                     wid: Id, uid: Id, sid: Id): FormSubmission -> bool
  {
    (s: FormSubmission) => Visible(s, contacts, templates, users, wid, uid, sid)
  }

  /** getFormSubmission: the first visible row, else 404 "Form submission not found". */
  function GetFormSubmission(subs: seq<FormSubmission>, contacts: seq<Contact>, templates: seq<FormTemplate>,
                             users: seq<WorkspaceUser>, wid: Id, uid: Id, sid: Id): (r: Result<FormSubmission>)
    ensures r.Err? <==> forall s :: s in subs ==> !Visible(s, contacts, templates, users, wid, uid, sid)
    ensures r.Err? ==> r.error == Fail(404, "Form submission not found")
    ensures r.Ok? ==> r.value in subs && Visible(r.value, contacts, templates, users, wid, uid, sid)
  {
    match FirstMatch(subs, VisibleAs(contacts, templates, users, wid, uid, sid))
    case None => Err(Fail(404, "Form submission not found"))
    case Some(s) => Ok(s)
  }

  /** A caller who is not a user of the workspace sees no submission of it. */
  lemma OutsiderGetsNotFound(subs: seq<FormSubmission>, contacts: seq<Contact>, templates: seq<FormTemplate>,
                             users: seq<WorkspaceUser>, wid: Id, uid: Id, sid: Id)
    requires !IsMember(users, wid, uid)
    ensures GetFormSubmission(subs, contacts, templates, users, wid, uid, sid) == Err(Fail(404, "Form submission not found"))
  {
  }

  // ---------------------------------------------------------------------
  // submitFormPublic
  // ---------------------------------------------------------------------

  predicate HasId(s: FormSubmission, sid: Id) {
    s.id == sid
  }

  function HasIdOf(sid: Id): FormSubmission -> bool {
    (s: FormSubmission) => HasId(s, sid)
  }

  /** `SELECT * FROM form_submissions WHERE id = $1`, first row. */
  function FindSubmission(subs: seq<FormSubmission>, sid: Id): (r: Option<FormSubmission>)
    ensures r.None? <==> forall s :: s in subs ==> s.id != sid
    ensures r.Some? ==> r.value in subs && r.value.id == sid
  {
    FirstMatch(subs, HasIdOf(sid))
  }

  /** `UPDATE form_submissions SET data, status = 'completed', completed_at = NOW() WHERE id = $2`. */
  function CompleteRows(subs: seq<FormSubmission>, sid: Id, data: map<string, string>, now: Time)
    : (r: seq<FormSubmission>)
    ensures |r| == |subs|
  {
    seq(|subs|, i requires 0 <= i < |subs| =>
      if subs[i].id == sid then subs[i].(data := Some(data), status := SubmissionStatus.Completed, completedAt := Some(now))
      else subs[i])
  }

  datatype Submitted = Submitted(result: Result<bool>, submissions: seq<FormSubmission>)

  /** submitFormPublic on the table: 404 for an unknown id, 400 once completed,
      otherwise every row with the id is completed with the data. */
  function SubmitForm(subs: seq<FormSubmission>, sid: Id, data: map<string, string>, now: Time): (out: Submitted)
    ensures FindSubmission(subs, sid).None? ==>
      out == Submitted(Err(Fail(404, "Form not found")), subs)
    ensures FindSubmission(subs, sid).Some? && FindSubmission(subs, sid).value.status == SubmissionStatus.Completed ==>
      out == Submitted(Err(Fail(400, "Form already completed")), subs)
    ensures out.result.Ok? ==>
      && out.result.value
      && FindSubmission(subs, sid).Some? && FindSubmission(subs, sid).value.status != SubmissionStatus.Completed
      && |out.submissions| == |subs|
      && forall i :: 0 <= i < |subs| ==>
           if subs[i].id == sid
           then out.submissions[i] == subs[i].(data := Some(data), status := SubmissionStatus.Completed, completedAt := Some(now))
           else out.submissions[i] == subs[i]
  {
    match FindSubmission(subs, sid)
    case None => Submitted(Err(Fail(404, "Form not found")), subs)
    case Some(s) =>
      if s.status == SubmissionStatus.Completed then Submitted(Err(Fail(400, "Form already completed")), subs)
      else Submitted(Ok(true), CompleteRows(subs, sid, data, now))
  }

  /** A pending or overdue submission is completed by a submit. */
  lemma OpenSubmissionCompletes(subs: seq<FormSubmission>, sid: Id, data: map<string, string>, now: Time)
    requires FindSubmission(subs, sid).Some?
    requires FindSubmission(subs, sid).value.status in {Pending, Overdue}
    ensures SubmitForm(subs, sid, data, now).result == Ok(true)
  {
  }

  /** Completion is terminal: once a submit succeeds, every later submit of the same
      id is refused with 400 and changes nothing, whatever data it carries. */
  lemma CompletionIsTerminal(subs: seq<FormSubmission>, sid: Id, data: map<string, string>, now: Time,
                             data2: map<string, string>, later: Time)
    requires SubmitForm(subs, sid, data, now).result.Ok?
    ensures var after := SubmitForm(subs, sid, data, now).submissions;
            SubmitForm(after, sid, data2, later) == Submitted(Err(Fail(400, "Form already completed")), after)
  {
    var after := SubmitForm(subs, sid, data, now).submissions;
    var k := FirstMatchLeast(subs, HasIdOf(sid));
    forall i | 0 <= i < k ensures !HasIdOf(sid)(after[i]) {
      assert !HasIdOf(sid)(subs[i]);
    }
    assert HasIdOf(sid)(after[k]);
    FirstMatchAt(after, HasIdOf(sid), k);
  }

  /** submitFormPublic: the table update of `SubmitForm`. */
  method SubmitFormPublic(db: Db, sid: Id, data: map<string, string>, now: Time) returns (r: Result<bool>)
    requires db.Valid()
    modifies db`submissions
    ensures db.Valid()
    ensures Submitted(r, db.submissions) == SubmitForm(old(db.submissions), sid, data, now)
  {
    var found := FindSubmission(db.submissions, sid);
    if found.None? {
      return Err(Fail(404, "Form not found"));
    }
    if found.value.status == SubmissionStatus.Completed {
      return Err(Fail(400, "Form already completed"));
    }
    ghost var before := db.submissions;
    db.submissions := CompleteRows(db.submissions, sid, data, now);
    forall s | s in db.submissions ensures s.id < db.nextId {
      var k :| 0 <= k < |db.submissions| && db.submissions[k] == s;
      assert before[k] in before;
    }
    r := Ok(true);
  }
}
