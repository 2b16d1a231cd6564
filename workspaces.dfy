/** workspaceService: the membership lookup every operation starts with, the
    onboarding readiness gate and activation, channel integrations, the
    partial workspace update, staff and the contact form. */
module Workspaces {
  import opened Common
  import opened Seqs
  import opened Store

  // ---------------------------------------------------------------------
  // Membership lookup
  // ---------------------------------------------------------------------

  /** The user row `uid` belongs to workspace `wid`. */
  /** getWorkspace: the workspace row, joined with the caller's membership, else 404. */
  function GetWorkspace(workspaces: seq<Workspace>, users: seq<WorkspaceUser>, wid: Id, uid: Id): (r: Result<Workspace>)
    ensures r.Ok? <==> HasWorkspace(workspaces, wid) && IsMember(users, wid, uid)
    ensures r.Ok? ==> r.value in workspaces && r.value.id == wid
    ensures r.Err? ==> r.error == Fail(404, "Workspace not found")
  {
    if !IsMember(users, wid, uid) then Err(Fail(404, "Workspace not found"))
    else
      match FirstMatch(workspaces, (w: Workspace) => w.id == wid)
      case None => Err(Fail(404, "Workspace not found"))
      case Some(w) => Ok(w)
  }

  // ---------------------------------------------------------------------
  // Onboarding gate and activation
  // ---------------------------------------------------------------------

  datatype OnboardingSteps = OnboardingSteps(
    workspace: bool,
    emailOrSms: bool,
    contactForm: bool,
    bookingTypes: bool,
    postBookingForms: bool,
    inventory: bool,
    staff: bool,
    active: bool,
    hasAvailability: bool)

  datatype Onboarding = Onboarding(workspace: Workspace, steps: OnboardingSteps, canActivate: bool)

  /** The existence tests of the readiness check, one per table. */
  predicate HasContactForm(forms: seq<ContactForm>, wid: Id) {
    exists f :: f in forms && f.workspaceId == wid
  }

  predicate HasBookingTypes(types: seq<BookingType>, wid: Id) {
    exists t :: t in types && t.workspaceId == wid
  }

  predicate HasAvailability(avail: seq<AvailabilityRow>, wid: Id) {
    exists a :: a in avail && a.workspaceId == wid
  }

  predicate HasFormTemplates(templates: seq<FormTemplate>, wid: Id) {
    exists t :: t in templates && t.workspaceId == wid
  }

  predicate HasInventory(items: seq<InventoryItem>, wid: Id) {
    exists i :: i in items && i.workspaceId == wid
  }

  predicate HasStaff(users: seq<WorkspaceUser>, wid: Id) {
    exists u :: u in users && u.workspaceId == wid && u.role == Staff
  }

  /** A channel is connected: email or SMS. */
  predicate ChannelConnected(w: Workspace) {
    w.emailConnected || w.smsConnected
  }

  /** The readiness rule: a connected channel, a booking type and an availability row. */
  predicate Ready(w: Workspace, types: seq<BookingType>, avail: seq<AvailabilityRow>) {
    ChannelConnected(w) && HasBookingTypes(types, w.id) && HasAvailability(avail, w.id)
  }

  /** getOnboardingStatus once the workspace row is found. */
  function Readiness(w: Workspace, users: seq<WorkspaceUser>, types: seq<BookingType>, avail: seq<AvailabilityRow>,
                     forms: seq<ContactForm>, templates: seq<FormTemplate>, items: seq<InventoryItem>): (o: Onboarding)
    ensures o.workspace == w && o.steps.workspace
    ensures o.steps.emailOrSms == ChannelConnected(w) && o.steps.active == (w.status == Active)
    ensures o.canActivate <==> Ready(w, types, avail)
    ensures o.steps.contactForm == HasContactForm(forms, w.id) && o.steps.bookingTypes == HasBookingTypes(types, w.id)
    ensures o.steps.postBookingForms == HasFormTemplates(templates, w.id) && o.steps.inventory == HasInventory(items, w.id)
    ensures o.steps.staff == HasStaff(users, w.id) && o.steps.hasAvailability == HasAvailability(avail, w.id)
  {
    var steps := OnboardingSteps(
      true,
      w.emailConnected || w.smsConnected,
      HasContactForm(forms, w.id),
      HasBookingTypes(types, w.id),
      HasFormTemplates(templates, w.id),
      HasInventory(items, w.id),
      HasStaff(users, w.id),
      w.status == Active,
      HasAvailability(avail, w.id));
    Onboarding(w, steps, (w.emailConnected || w.smsConnected) && steps.bookingTypes && steps.hasAvailability)
  }

  /** getOnboardingStatus: 404 without membership, else the readiness report. */
  function OnboardingStatus(db: Db, wid: Id, uid: Id): (r: Result<Onboarding>)
    reads db
    ensures r.Err? <==> !HasWorkspace(db.workspaces, wid) || !IsMember(db.users, wid, uid)
    ensures r.Err? ==> r.error == Fail(404, "Workspace not found")
    ensures r.Ok? ==>
      && r.value.workspace in db.workspaces && r.value.workspace.id == wid
      && (r.value.canActivate <==> Ready(r.value.workspace, db.bookingTypes, db.availability))
      && r.value.steps.contactForm == HasContactForm(db.contactForms, wid)
      && r.value.steps.postBookingForms == HasFormTemplates(db.formTemplates, wid)
      && r.value.steps.inventory == HasInventory(db.inventory, wid)
      && r.value.steps.staff == HasStaff(db.users, wid)
  {
    match GetWorkspace(db.workspaces, db.users, wid, uid)
    case Err(e) => Err(e)
    case Ok(w) => Ok(Readiness(w, db.users, db.bookingTypes, db.availability, db.contactForms, db.formTemplates, db.inventory))
  }

  /** The optional steps (contact form, post-booking forms, inventory, staff) never decide
      activation: two stores that agree on the workspace, its booking types and its
      availability give the same verdict. */
  lemma OptionalStepsDoNotGate(w: Workspace, types: seq<BookingType>, avail: seq<AvailabilityRow>,
                               users1: seq<WorkspaceUser>, forms1: seq<ContactForm>, templates1: seq<FormTemplate>, items1: seq<InventoryItem>,
                               users2: seq<WorkspaceUser>, forms2: seq<ContactForm>, templates2: seq<FormTemplate>, items2: seq<InventoryItem>)
    ensures Readiness(w, users1, types, avail, forms1, templates1, items1).canActivate
         == Readiness(w, users2, types, avail, forms2, templates2, items2).canActivate
  {
  }

  /** The message of the failed activation. */
  const NotReadyMessage: string :=
    "Cannot activate: connect at least one communication channel, add a booking type, and set availability."

  /** `UPDATE workspaces SET status = $2 WHERE id = $1`. */
  function SetWorkspaceStatus(ws: seq<Workspace>, wid: Id, status: WorkspaceStatus): (r: seq<Workspace>)
    ensures |r| == |ws|
  {
    seq(|ws|, i requires 0 <= i < |ws| => if ws[i].id == wid then ws[i].(status := status) else ws[i])
  }

  /** Activation leaves every row but the workspace's untouched and changes nothing but the status. */
  lemma SetWorkspaceStatusEffect(ws: seq<Workspace>, wid: Id, status: WorkspaceStatus, i: int)
    requires 0 <= i < |ws|
    ensures SetWorkspaceStatus(ws, wid, status)[i] == if ws[i].id == wid then ws[i].(status := status) else ws[i]
    ensures SetWorkspaceStatus(ws, wid, status)[i].id == ws[i].id
    ensures ChannelConnected(SetWorkspaceStatus(ws, wid, status)[i]) == ChannelConnected(ws[i])
  {
  }

  /** Writing the same status twice is writing it once. */
  lemma SetWorkspaceStatusIdempotent(ws: seq<Workspace>, wid: Id, status: WorkspaceStatus)
    ensures SetWorkspaceStatus(SetWorkspaceStatus(ws, wid, status), wid, status) == SetWorkspaceStatus(ws, wid, status)
  {
  }

  /** activateWorkspace: 400 unless ready (the store unchanged); otherwise the status
      becomes active and the workspace is returned. */
  method ActivateWorkspace(db: Db, wid: Id, uid: Id) returns (r: Result<Workspace>)
    requires db.Valid()
    modifies db`workspaces
    ensures db.Valid()
    ensures match old(OnboardingStatus(db, wid, uid))
      case Err(e) => r == Err(e) && db.workspaces == old(db.workspaces)
      case Ok(o) =>
        if !o.canActivate then r == Err(Fail(400, NotReadyMessage)) && db.workspaces == old(db.workspaces)
        else
          && db.workspaces == SetWorkspaceStatus(old(db.workspaces), wid, Active)
          && r == GetWorkspace(db.workspaces, db.users, wid, uid)
          && r.Ok? && r.value.status == Active
  {
    var status := OnboardingStatus(db, wid, uid);
    if status.Err? {
      return Err(status.error);
    }
    if !status.value.canActivate {
      return Err(Fail(400, NotReadyMessage));
    }
    ghost var w := status.value.workspace;
    ghost var i :| 0 <= i < |db.workspaces| && db.workspaces[i] == w;
    StatusRowsSet(db.workspaces, wid, Active, i);
    db.UpdateWorkspaces(SetWorkspaceStatus(db.workspaces, wid, Active));
    r := GetWorkspace(db.workspaces, db.users, wid, uid);
  }

  /** After the status update, the workspace is still there and each of its rows has
      the new status. */
  lemma StatusRowsSet(ws: seq<Workspace>, wid: Id, status: WorkspaceStatus, i: int)
    requires 0 <= i < |ws| && ws[i].id == wid
    ensures HasWorkspace(SetWorkspaceStatus(ws, wid, status), wid)
    ensures forall v :: v in SetWorkspaceStatus(ws, wid, status) && v.id == wid ==> v.status == status
  {
    var after := SetWorkspaceStatus(ws, wid, status);
    assert after[i].id == wid && after[i] in after;
  }

  /** After a successful activation the workspace is still ready, so a repeated call
      succeeds again and rewrites the table to the same contents. */
  lemma ActivationRepeatable(ws: seq<Workspace>, types: seq<BookingType>, avail: seq<AvailabilityRow>, w: Workspace)
    requires w in ws && Ready(w, types, avail)
    ensures w.(status := Active) in SetWorkspaceStatus(ws, w.id, Active)
    ensures Ready(w.(status := Active), types, avail)
    ensures SetWorkspaceStatus(SetWorkspaceStatus(ws, w.id, Active), w.id, Active) == SetWorkspaceStatus(ws, w.id, Active)
  {
    var i :| 0 <= i < |ws| && ws[i] == w;
    assert SetWorkspaceStatus(ws, w.id, Active)[i] == w.(status := Active);
  }

  // ---------------------------------------------------------------------
  // Channel integrations
  // ---------------------------------------------------------------------

  predicate IsIntegration(row: Integration, wid: Id, kind: Channel) {
    row.workspaceId == wid && row.kind == kind
  }

  /** At most one integration row per (workspace, type): the upsert key. */
  predicate IntegrationKeysUnique(rows: seq<Integration>) {
    forall i, j :: 0 <= i < j < |rows| ==> !IsIntegration(rows[j], rows[i].workspaceId, rows[i].kind)
  }

  /** The row of a (workspace, type) key. */
  function FindIntegration(rows: seq<Integration>, wid: Id, kind: Channel): (r: Option<Integration>)
    ensures r.None? <==> forall x :: x in rows ==> !IsIntegration(x, wid, kind)
    ensures r.Some? ==> r.value in rows && IsIntegration(r.value, wid, kind)
  {
    FirstMatch(rows, (x: Integration) => IsIntegration(x, wid, kind))
  }

  /** `INSERT ... ON CONFLICT (workspace_id, type) DO UPDATE SET provider, config, is_active = true`:
      the key's row is rewritten in place (its last_error kept), or appended when absent. */
  function UpsertIntegration(rows: seq<Integration>, wid: Id, kind: Channel, provider: string, config: ProviderConfig): (r: seq<Integration>)
  {
    if exists x :: x in rows && IsIntegration(x, wid, kind) then
      seq(|rows|, i requires 0 <= i < |rows| =>
        if IsIntegration(rows[i], wid, kind) then rows[i].(provider := provider, config := config, isActive := true) else rows[i])
    else rows + [Integration(wid, kind, provider, config, true, None)]
  }

  /** In a table with unique keys, a row of the key is the only one. */
  lemma OnlyRowOfKey(rows: seq<Integration>, k: int)
    requires IntegrationKeysUnique(rows) && 0 <= k < |rows|
    ensures forall i :: 0 <= i < |rows| && i != k ==> !IsIntegration(rows[i], rows[k].workspaceId, rows[k].kind)
  {
    forall i | 0 <= i < |rows| && i != k ensures !IsIntegration(rows[i], rows[k].workspaceId, rows[k].kind) {
      if i < k {
        assert !IsIntegration(rows[k], rows[i].workspaceId, rows[i].kind);
      }
    }
  }

  /** The upsert keeps at most one row per (workspace, type). */
  lemma UpsertKeepsKeysUnique(rows: seq<Integration>, wid: Id, kind: Channel, provider: string, config: ProviderConfig)
    requires IntegrationKeysUnique(rows)
    ensures IntegrationKeysUnique(UpsertIntegration(rows, wid, kind, provider, config))
  {
    var r := UpsertIntegration(rows, wid, kind, provider, config);
    if exists x :: x in rows && IsIntegration(x, wid, kind) {
      forall i, j | 0 <= i < j < |r| ensures !IsIntegration(r[j], r[i].workspaceId, r[i].kind) {
        assert r[i].workspaceId == rows[i].workspaceId && r[i].kind == rows[i].kind;
        assert r[j].workspaceId == rows[j].workspaceId && r[j].kind == rows[j].kind;
      }
    } else {
      forall i, j | 0 <= i < j < |r| ensures !IsIntegration(r[j], r[i].workspaceId, r[i].kind) {
        if j == |rows| {
          assert r[i] in rows;
        } else {
          assert r[i] == rows[i] && r[j] == rows[j];
        }
      }
    }
  }

  /** After the upsert the key's single row is active and carries the new provider and
      configuration; an existing row keeps its last error, a new one has none. */
  lemma UpsertSetsKey(rows: seq<Integration>, wid: Id, kind: Channel, provider: string, config: ProviderConfig)
    requires IntegrationKeysUnique(rows)
    ensures FindIntegration(UpsertIntegration(rows, wid, kind, provider, config), wid, kind) ==
      Some(Integration(wid, kind, provider, config, true,
                       match FindIntegration(rows, wid, kind) case Some(x) => x.lastError case None => None))
  {
    var r := UpsertIntegration(rows, wid, kind, provider, config);
    if exists x :: x in rows && IsIntegration(x, wid, kind) {
      var k :| 0 <= k < |rows| && IsIntegration(rows[k], wid, kind);
      OnlyRowOfKey(rows, k);
      FirstMatchUnique(rows, wid, kind, k);
      assert r[k] == rows[k].(provider := provider, config := config, isActive := true);
      FirstMatchUnique(r, wid, kind, k);
    } else {
      FirstMatchUnique(r, wid, kind, |rows|);
    }
  }

  /** Every other (workspace, type) key finds the same row as before. */
  lemma UpsertLeavesOtherKeys(rows: seq<Integration>, wid: Id, kind: Channel, provider: string, config: ProviderConfig,
                              wid': Id, kind': Channel)
    requires (wid', kind') != (wid, kind)
    ensures FindIntegration(UpsertIntegration(rows, wid, kind, provider, config), wid', kind') == FindIntegration(rows, wid', kind')
  {
    var r := UpsertIntegration(rows, wid, kind, provider, config);
    if exists x :: x in rows && IsIntegration(x, wid, kind) {
      FirstMatchSame(rows, r, wid', kind');
    } else {
      FirstMatchAppend(rows, Integration(wid, kind, provider, config, true, None), wid', kind');
    }
  }

  /** With only one row of the key, the lookup finds that row. */
  lemma FirstMatchUnique(rows: seq<Integration>, wid: Id, kind: Channel, k: int)
    requires 0 <= k < |rows| && IsIntegration(rows[k], wid, kind)
    requires forall i :: 0 <= i < |rows| && i != k ==> !IsIntegration(rows[i], wid, kind)
    ensures FindIntegration(rows, wid, kind) == Some(rows[k])
  {
    var r := FindIntegration(rows, wid, kind);
    var i :| 0 <= i < |rows| && rows[i] == r.value;
  }

  /** Two tables that agree on every row of a key other than the rewritten one agree on its lookup. */
  lemma {:induction false} FirstMatchSame(a: seq<Integration>, b: seq<Integration>, wid: Id, kind: Channel)
    requires |a| == |b|
    requires forall i :: 0 <= i < |a| ==> (IsIntegration(a[i], wid, kind) || IsIntegration(b[i], wid, kind)) ==> a[i] == b[i]
    requires forall i :: 0 <= i < |a| ==> IsIntegration(a[i], wid, kind) == IsIntegration(b[i], wid, kind)
    ensures FindIntegration(a, wid, kind) == FindIntegration(b, wid, kind)
  {
    if a != [] {
      FirstMatchSame(a[1..], b[1..], wid, kind);
      assert a == [a[0]] + a[1..] && b == [b[0]] + b[1..];
    }
  }

  lemma {:induction false} FirstMatchAppend(rows: seq<Integration>, x: Integration, wid: Id, kind: Channel)
    requires !IsIntegration(x, wid, kind)
    ensures FindIntegration(rows + [x], wid, kind) == FindIntegration(rows, wid, kind)
  {
    if rows != [] {
      assert (rows + [x])[1..] == rows[1..] + [x];
      FirstMatchAppend(rows[1..], x, wid, kind);
    } else {
      assert [x][1..] == [];
    }
  }

  /** `UPDATE workspaces SET email_connected = true` (or sms_connected). */
  function MarkConnected(ws: seq<Workspace>, wid: Id, kind: Channel): (r: seq<Workspace>)
    ensures |r| == |ws|
  {
    seq(|ws|, i requires 0 <= i < |ws| =>
      if ws[i].id != wid then ws[i]
      else if kind == Email then ws[i].(emailConnected := true)
      else ws[i].(smsConnected := true))
  }

  /** No write of this service resets a connected flag: marking a channel, setting the
      status and applying a patch all keep both flags of every row at least as set. */
  lemma FlagsNeverReset(ws: seq<Workspace>, wid: Id, kind: Channel, status: WorkspaceStatus, p: WorkspacePatch, i: int)
    requires 0 <= i < |ws|
    ensures ws[i].emailConnected ==> MarkConnected(ws, wid, kind)[i].emailConnected
    ensures ws[i].smsConnected ==> MarkConnected(ws, wid, kind)[i].smsConnected
    ensures ws[i].id == wid && kind == Email ==> MarkConnected(ws, wid, kind)[i].emailConnected
    ensures ws[i].id == wid && kind == Sms ==> MarkConnected(ws, wid, kind)[i].smsConnected
    ensures SetWorkspaceStatus(ws, wid, status)[i].emailConnected == ws[i].emailConnected
    ensures SetWorkspaceStatus(ws, wid, status)[i].smsConnected == ws[i].smsConnected
    ensures ApplyPatch(ws, wid, p)[i].emailConnected == ws[i].emailConnected
    ensures ApplyPatch(ws, wid, p)[i].smsConnected == ws[i].smsConnected
  {
  }

  /** Inserting booking types or availability rows keeps a ready workspace ready. */
  lemma ReadyMonotone(w: Workspace, types: seq<BookingType>, avail: seq<AvailabilityRow>,
                      moreTypes: seq<BookingType>, moreAvail: seq<AvailabilityRow>)
    requires Ready(w, types, avail)
    ensures Ready(w, types + moreTypes, avail + moreAvail)
  {
    var t :| t in types && t.workspaceId == w.id;
    assert t in types + moreTypes;
    var a :| a in avail && a.workspaceId == w.id;
    assert a in avail + moreAvail;
  }

  /** Connecting a channel, setting the status and applying a patch keep every ready
      row ready; the integrations table that the upsert beside them writes is not read
      by the rule at all. */
  lemma ReadySurvivesWrites(ws: seq<Workspace>, i: int, wid: Id, kind: Channel, status: WorkspaceStatus, p: WorkspacePatch,
                            types: seq<BookingType>, avail: seq<AvailabilityRow>)
    requires 0 <= i < |ws| && Ready(ws[i], types, avail)
    ensures Ready(MarkConnected(ws, wid, kind)[i], types, avail)
    ensures Ready(SetWorkspaceStatus(ws, wid, status)[i], types, avail)
    ensures Ready(ApplyPatch(ws, wid, p)[i], types, avail)
  {
    assert MarkConnected(ws, wid, kind)[i].id == ws[i].id;
    assert SetWorkspaceStatus(ws, wid, status)[i].id == ws[i].id;
    assert ApplyPatch(ws, wid, p)[i].id == ws[i].id;
  }

  /** The saved JSON configuration of each settings form. */
  function EmailConfig(provider: string, apiKey: Option<string>, fromEmail: Option<string>): ProviderConfig {
    ProviderConfig(provider, apiKey, fromEmail, None, None, None)
  }

  function SmsConfig(provider: string, accountSid: Option<string>, authToken: Option<string>, phoneNumber: Option<string>): ProviderConfig {
    ProviderConfig(provider, None, None, accountSid, authToken, phoneNumber)
  }

  /** setEmailIntegration / setSmsIntegration: after the membership check, upsert the
      (workspace, type) row as active and set the matching connected flag. */
  method SetIntegration(db: Db, wid: Id, uid: Id, kind: Channel, config: ProviderConfig) returns (r: Result<Workspace>)
    requires db.Valid()
    modifies db`integrations, db`workspaces
    ensures db.Valid()
    ensures old(GetWorkspace(db.workspaces, db.users, wid, uid)).Err? ==>
      r == old(GetWorkspace(db.workspaces, db.users, wid, uid)) && db.integrations == old(db.integrations) && db.workspaces == old(db.workspaces)
    ensures old(GetWorkspace(db.workspaces, db.users, wid, uid)).Ok? ==>
      && db.integrations == UpsertIntegration(old(db.integrations), wid, kind, config.provider, config)
      && db.workspaces == MarkConnected(old(db.workspaces), wid, kind)
      && r == GetWorkspace(db.workspaces, db.users, wid, uid)
      && r.Ok? && (if kind == Email then r.value.emailConnected else r.value.smsConnected)
  {
    var found := GetWorkspace(db.workspaces, db.users, wid, uid);
    if found.Err? {
      return found;
    }
    ghost var i :| 0 <= i < |db.workspaces| && db.workspaces[i] == found.value;
    db.integrations := UpsertIntegration(db.integrations, wid, kind, config.provider, config);
    MarkedRowsConnected(db.workspaces, wid, kind, i);
    db.UpdateWorkspaces(MarkConnected(db.workspaces, wid, kind));
    r := GetWorkspace(db.workspaces, db.users, wid, uid);
  }

  /** After marking, the workspace is still there and each of its rows has the flag. */
  lemma MarkedRowsConnected(ws: seq<Workspace>, wid: Id, kind: Channel, i: int)
    requires 0 <= i < |ws| && ws[i].id == wid
    ensures HasWorkspace(MarkConnected(ws, wid, kind), wid)
    ensures forall v :: v in MarkConnected(ws, wid, kind) && v.id == wid ==>
      if kind == Email then v.emailConnected else v.smsConnected
  {
    var marked := MarkConnected(ws, wid, kind);
    assert marked[i].id == wid && marked[i] in marked;
  }

  method SetEmailIntegration(db: Db, wid: Id, uid: Id, provider: string, apiKey: Option<string>, fromEmail: Option<string>)
    returns (r: Result<Workspace>)
    requires db.Valid()
    modifies db`integrations, db`workspaces
    ensures db.Valid()
    ensures old(GetWorkspace(db.workspaces, db.users, wid, uid)).Err? ==>
      r == old(GetWorkspace(db.workspaces, db.users, wid, uid))
      && db.integrations == old(db.integrations) && db.workspaces == old(db.workspaces)
    ensures old(GetWorkspace(db.workspaces, db.users, wid, uid)).Ok? ==>
      && db.integrations == UpsertIntegration(old(db.integrations), wid, Email, provider, EmailConfig(provider, apiKey, fromEmail))
      && db.workspaces == MarkConnected(old(db.workspaces), wid, Email)
      && r.Ok? && r.value.emailConnected
  {
    r := SetIntegration(db, wid, uid, Email, EmailConfig(provider, apiKey, fromEmail));
  }

  method SetSmsIntegration(db: Db, wid: Id, uid: Id, provider: string,
                           accountSid: Option<string>, authToken: Option<string>, phoneNumber: Option<string>)
    returns (r: Result<Workspace>)
    requires db.Valid()
    modifies db`integrations, db`workspaces
    ensures db.Valid()
    ensures old(GetWorkspace(db.workspaces, db.users, wid, uid)).Err? ==>
      r == old(GetWorkspace(db.workspaces, db.users, wid, uid))
      && db.integrations == old(db.integrations) && db.workspaces == old(db.workspaces)
    ensures old(GetWorkspace(db.workspaces, db.users, wid, uid)).Ok? ==>
      && db.integrations == UpsertIntegration(old(db.integrations), wid, Sms, provider, SmsConfig(provider, accountSid, authToken, phoneNumber))
      && db.workspaces == MarkConnected(old(db.workspaces), wid, Sms)
      && r.Ok? && r.value.smsConnected
  {
    r := SetIntegration(db, wid, uid, Sms, SmsConfig(provider, accountSid, authToken, phoneNumber));
  }

  // ---------------------------------------------------------------------
  // Partial update
  // ---------------------------------------------------------------------

  /** The fields a caller may pass; None is an absent (undefined) field. */
  datatype WorkspacePatch = WorkspacePatch(
    name: Option<string>,
    address: Option<string>,
    timezone: Option<string>,
    contactEmail: Option<string>)

  datatype Column = NameColumn | AddressColumn | TimezoneColumn | ContactEmailColumn

  /** One `column = $k` entry of the SET list. */
  datatype Assignment = Assignment(column: Column, placeholder: nat)

  function Field(p: WorkspacePatch, c: Column): Option<string> {
    match c
    case NameColumn => p.name
    case AddressColumn => p.address
    case TimezoneColumn => p.timezone
    case ContactEmailColumn => p.contactEmail
  }

  function ColumnRank(c: Column): nat {
    match c
    case NameColumn => 0
    case AddressColumn => 1
    case TimezoneColumn => 2
    case ContactEmailColumn => 3
  }

  /** `updates`/`values` hold, numbered $1..$n in column order, exactly the passed fields
      among the columns ranked below `upTo`. */
  predicate Built(p: WorkspacePatch, updates: seq<Assignment>, values: seq<string>, upTo: nat) {
    && |values| == |updates|
    && (forall k :: 0 <= k < |updates| ==>
          updates[k].placeholder == k + 1 && Field(p, updates[k].column) == Some(values[k]) && ColumnRank(updates[k].column) < upTo)
    && (forall c :: ColumnRank(c) < upTo && Field(p, c).Some? ==> exists k :: 0 <= k < |updates| && updates[k].column == c)
    && (forall k :: 0 < k < |updates| ==> ColumnRank(updates[k - 1].column) < ColumnRank(updates[k].column))
  }

  /** Only one column has a given rank. */
  lemma RankDeterminesColumn(c: Column, c2: Column)
    requires ColumnRank(c2) == ColumnRank(c)
    ensures c2 == c
  {
  }

  /** A passed field appends its assignment and value and keeps the list built. */
  lemma BuiltExtend(p: WorkspacePatch, c: Column, updates: seq<Assignment>, values: seq<string>)
    requires Built(p, updates, values, ColumnRank(c)) && Field(p, c).Some?
    ensures Built(p, updates + [Assignment(c, |updates| + 1)], values + [Field(p, c).value], ColumnRank(c) + 1)
  {
    var updates', values' := updates + [Assignment(c, |updates| + 1)], values + [Field(p, c).value];
    forall k | 0 <= k < |updates'|
      ensures updates'[k].placeholder == k + 1 && Field(p, updates'[k].column) == Some(values'[k])
      ensures ColumnRank(updates'[k].column) < ColumnRank(c) + 1
    {
      if k < |updates| {
        assert updates'[k] == updates[k] && values'[k] == values[k];
      }
    }
    forall k | 0 < k < |updates'| ensures ColumnRank(updates'[k - 1].column) < ColumnRank(updates'[k].column) {
      if k < |updates| {
        assert updates'[k - 1] == updates[k - 1] && updates'[k] == updates[k];
      }
    }
    forall c2 | ColumnRank(c2) < ColumnRank(c) + 1 && Field(p, c2).Some?
      ensures exists k :: 0 <= k < |updates'| && updates'[k].column == c2
    {
      if ColumnRank(c2) < ColumnRank(c) {
        var k :| 0 <= k < |updates| && updates[k].column == c2;
        assert updates'[k] == updates[k];
      } else {
        RankDeterminesColumn(c, c2);
        assert updates'[|updates|].column == c;
      }
    }
  }

  /** An absent field adds nothing and keeps the list built. */
  lemma BuiltSkip(p: WorkspacePatch, c: Column, updates: seq<Assignment>, values: seq<string>)
    requires Built(p, updates, values, ColumnRank(c)) && Field(p, c).None?
    ensures Built(p, updates, values, ColumnRank(c) + 1)
  {
    forall c2 | ColumnRank(c2) < ColumnRank(c) + 1 && Field(p, c2).Some?
      ensures exists k :: 0 <= k < |updates| && updates[k].column == c2
    {
      if ColumnRank(c2) == ColumnRank(c) {
        RankDeterminesColumn(c, c2);
      }
    }
  }

  /** One `if (data.x !== undefined) { updates.push(`x = $${i++}`); values.push(data.x) }` step. */
  method PushIfPassed(p: WorkspacePatch, c: Column, updates: seq<Assignment>, values: seq<string>, i: nat)
    returns (updates': seq<Assignment>, values': seq<string>, i': nat)
    requires Built(p, updates, values, ColumnRank(c)) && i == |updates| + 1
    ensures Built(p, updates', values', ColumnRank(c) + 1) && i' == |updates'| + 1
  {
    if Field(p, c).Some? {
      BuiltExtend(p, c, updates, values);
      updates', values', i' := updates + [Assignment(c, i)], values + [Field(p, c).value], i + 1;
    } else {
      BuiltSkip(p, c, updates, values);
      updates', values', i' := updates, values, i;
    }
  }

  /** The counter-driven SET list of updateWorkspace: one assignment per passed field, in
      declaration order, numbered $1..$n; the id is bound to $n+1. */
  method BuildUpdate(p: WorkspacePatch) returns (updates: seq<Assignment>, values: seq<string>, idPlaceholder: nat)
    ensures |values| == |updates|
    ensures forall k :: 0 <= k < |updates| ==> updates[k].placeholder == k + 1 && Field(p, updates[k].column) == Some(values[k])
    ensures forall c :: Field(p, c).Some? <==> exists k :: 0 <= k < |updates| && updates[k].column == c
    ensures forall k :: 0 < k < |updates| ==> ColumnRank(updates[k - 1].column) < ColumnRank(updates[k].column)
    ensures idPlaceholder == |updates| + 1
  {
    var i := 1;
    updates, values, i := PushIfPassed(p, NameColumn, [], [], i);
    updates, values, i := PushIfPassed(p, AddressColumn, updates, values, i);
    updates, values, i := PushIfPassed(p, TimezoneColumn, updates, values, i);
    updates, values, i := PushIfPassed(p, ContactEmailColumn, updates, values, i);
    idPlaceholder := i;
  }

  /** The UPDATE's effect: passed fields overwrite, absent ones are kept. */
  function ApplyPatch(ws: seq<Workspace>, wid: Id, p: WorkspacePatch): (r: seq<Workspace>)
    ensures |r| == |ws|
  {
    seq(|ws|, i requires 0 <= i < |ws| =>
      if ws[i].id != wid then ws[i]
      else ws[i].(name := p.name.GetOr(ws[i].name),
                  address := if p.address.Some? then p.address else ws[i].address,
                  timezone := p.timezone.GetOr(ws[i].timezone),
                  contactEmail := if p.contactEmail.Some? then p.contactEmail else ws[i].contactEmail))
  }

  /** A patch with no field passed is no update at all, and applying a patch twice is
      applying it once. */
  lemma ApplyPatchLaws(ws: seq<Workspace>, wid: Id, p: WorkspacePatch)
    ensures p == WorkspacePatch(None, None, None, None) ==> ApplyPatch(ws, wid, p) == ws
    ensures ApplyPatch(ApplyPatch(ws, wid, p), wid, p) == ApplyPatch(ws, wid, p)
  {
  }

  /** updateWorkspace: membership check; with no field passed, no write; otherwise the
      patch is applied to the workspace row; the row is returned. */
  method UpdateWorkspace(db: Db, wid: Id, uid: Id, p: WorkspacePatch) returns (r: Result<Workspace>)
    requires db.Valid()
    modifies db`workspaces
    ensures db.Valid()
    ensures old(GetWorkspace(db.workspaces, db.users, wid, uid)).Err? ==>
      r == Err(Fail(404, "Workspace not found")) && db.workspaces == old(db.workspaces)
    ensures old(GetWorkspace(db.workspaces, db.users, wid, uid)).Ok? ==>
      && db.workspaces == ApplyPatch(old(db.workspaces), wid, p)
      && r == GetWorkspace(db.workspaces, db.users, wid, uid) && r.Ok?
  {
    var found := GetWorkspace(db.workspaces, db.users, wid, uid);
    if found.Err? {
      return found;
    }
    ghost var i :| 0 <= i < |db.workspaces| && db.workspaces[i] == found.value;
    var updates, values, idPlaceholder := BuildUpdate(p);
    if |updates| == 0 {
      assert Field(p, NameColumn).None? && Field(p, AddressColumn).None?;
      assert Field(p, TimezoneColumn).None? && Field(p, ContactEmailColumn).None?;
      ApplyPatchLaws(db.workspaces, wid, p);
      return GetWorkspace(db.workspaces, db.users, wid, uid);
    }
    db.UpdateWorkspaces(ApplyPatch(db.workspaces, wid, p));
    assert db.workspaces[i].id == wid;
    r := GetWorkspace(db.workspaces, db.users, wid, uid);
  }

  // ---------------------------------------------------------------------
  // Staff and the contact form
  // ---------------------------------------------------------------------

  /** No two users of one workspace share an email. */
  predicate EmailsUniquePerWorkspace(users: seq<WorkspaceUser>) {
    forall i, j :: 0 <= i < j < |users| && users[i].workspaceId == users[j].workspaceId ==> users[i].email != users[j].email
  }

  predicate EmailTaken(users: seq<WorkspaceUser>, wid: Id, email: string) {
    exists u :: u in users && u.workspaceId == wid && u.email == email
  }

  datatype StaffView = StaffView(id: Id, email: string, role: Role, fullName: Option<string>)

  /** addStaff: 400 if the email is already used in this workspace; otherwise a staff user
      is inserted with the given (already hashed) password. */
  method AddStaff(db: Db, wid: Id, uid: Id, email: string, passwordHash: string, fullName: Option<string>)
    returns (r: Result<StaffView>)
    requires db.Valid()
    modifies db`users, db`nextId
    ensures db.Valid()
    ensures old(GetWorkspace(db.workspaces, db.users, wid, uid)).Err? ==>
      r == Err(Fail(404, "Workspace not found")) && db.users == old(db.users)
    ensures old(GetWorkspace(db.workspaces, db.users, wid, uid)).Ok? && old(EmailTaken(db.users, wid, email)) ==>
      r == Err(Fail(400, "A user with this email already exists in this workspace")) && db.users == old(db.users)
    ensures r.Ok? ==>
      && db.users == old(db.users) + [WorkspaceUser(r.value.id, wid, email, Some(passwordHash), Staff, fullName, None)]
      && r.value == StaffView(old(db.nextId), email, Staff, fullName)
    ensures old(GetWorkspace(db.workspaces, db.users, wid, uid)).Ok? && !old(EmailTaken(db.users, wid, email)) ==> r.Ok?
    ensures EmailsUniquePerWorkspace(old(db.users)) ==> EmailsUniquePerWorkspace(db.users)
  {
    var found := GetWorkspace(db.workspaces, db.users, wid, uid);
    if found.Err? {
      return Err(found.error);
    }
    if exists u :: u in db.users && u.workspaceId == wid && u.email == email {
      return Err(Fail(400, "A user with this email already exists in this workspace"));
    }
    ghost var before := db.users;
    var user := db.InsertUser(WorkspaceUser(0, wid, email, Some(passwordHash), Staff, fullName, None));
    r := Ok(StaffView(user.id, email, Staff, fullName));
    if EmailsUniquePerWorkspace(before) {
      forall i, j | 0 <= i < j < |db.users| && db.users[i].workspaceId == db.users[j].workspaceId
        ensures db.users[i].email != db.users[j].email
      {
        if j == |before| {
          assert db.users[i] in before;
        }
      }
    }
  }

  /** The contact form saved when the caller passes no fields. */
  function DefaultContactFields(): seq<FormField> {
    [FormField("name", "text"), FormField("email", "email"), FormField("message", "textarea")]
  }

  /** `INSERT ... ON CONFLICT (workspace_id) DO UPDATE`: one contact form per workspace. */
  function UpsertContactForm(forms: seq<ContactForm>, form: ContactForm): (r: seq<ContactForm>)
  {
    if exists f :: f in forms && f.workspaceId == form.workspaceId then
      seq(|forms|, i requires 0 <= i < |forms| => if forms[i].workspaceId == form.workspaceId then form else forms[i])
    else forms + [form]
  }

  /** The saved form is now the workspace's form, and other workspaces' forms are unchanged. */
  lemma UpsertContactFormEffect(forms: seq<ContactForm>, form: ContactForm, wid: Id)
    ensures forall f :: f in UpsertContactForm(forms, form) && f.workspaceId == form.workspaceId ==> f == form
    ensures form in UpsertContactForm(forms, form)
    ensures wid != form.workspaceId ==>
      forall f: ContactForm :: f.workspaceId == wid ==> (f in UpsertContactForm(forms, form) <==> f in forms)
  {
    var r := UpsertContactForm(forms, form);
    if exists f :: f in forms && f.workspaceId == form.workspaceId {
      var k :| 0 <= k < |forms| && forms[k].workspaceId == form.workspaceId;
      assert r[k] == form;
      forall f: ContactForm | f.workspaceId == wid && wid != form.workspaceId && f in forms ensures f in r {
        var i :| 0 <= i < |forms| && forms[i] == f;
        assert r[i] == f;
      }
    }
  }

  /** createOrUpdateContactForm: defaults "Contact", the three standard fields and an empty template. */
  method CreateOrUpdateContactForm(db: Db, wid: Id, uid: Id, name: Option<string>, fields: Option<seq<FormField>>,
                                   welcomeTemplate: Option<string>) returns (r: Result<ContactForm>)
    requires db.Valid()
    modifies db`contactForms
    ensures db.Valid()
    ensures old(GetWorkspace(db.workspaces, db.users, wid, uid)).Err? ==>
      r == Err(Fail(404, "Workspace not found")) && db.contactForms == old(db.contactForms)
    ensures old(GetWorkspace(db.workspaces, db.users, wid, uid)).Ok? ==>
      && r == Ok(ContactForm(wid, name.GetOr("Contact"), fields.GetOr(DefaultContactFields()), welcomeTemplate.GetOr("")))
      && db.contactForms == UpsertContactForm(old(db.contactForms), r.value)
  {
    var found := GetWorkspace(db.workspaces, db.users, wid, uid);
    if found.Err? {
      return Err(found.error);
    }
    var form := ContactForm(wid, name.GetOr("Contact"), fields.GetOr(DefaultContactFields()), welcomeTemplate.GetOr(""));
    db.contactForms := UpsertContactForm(db.contactForms, form);
    r := Ok(form);
  }
}
