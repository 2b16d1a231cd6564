/** The relational store as an in-memory object: one sequence of rows per
    table, in insertion order, and a counter that hands out fresh row ids
    (standing in for uuid generation). */
module Store {
  import opened Common
  import opened Clock
  import opened Seqs

  datatype Workspace = Workspace(
    id: Id,
    name: string,
    address: Option<string>,
    timezone: string,
    contactEmail: Option<string>,
    status: WorkspaceStatus,
    emailConnected: bool,
    smsConnected: bool)

  datatype WorkspaceUser = WorkspaceUser(
    id: Id,
    workspaceId: Id,
    email: string,
    passwordHash: Option<string>,
    role: Role,
    fullName: Option<string>,
    permissions: Option<map<string, bool>>)

  datatype BookingType = BookingType(
    id: Id,
    workspaceId: Id,
    name: string,
    durationMinutes: int,
    location: Option<string>,
    isOnline: bool)

  /** A weekly window; bookingTypeId None is the workspace-wide scope. */
  datatype AvailabilityRow = AvailabilityRow(
    id: Id,
    workspaceId: Id,
    bookingTypeId: Option<Id>,
    dayOfWeek: int,
    startTime: TimeOfDay,
    endTime: TimeOfDay)

  datatype Booking = Booking(
    id: Id,
    workspaceId: Id,
    contactId: Id,
    bookingTypeId: Id,
    scheduledAt: Time,
    status: BookingStatus,
    notes: Option<string>)

  datatype Contact = Contact(
    id: Id,
    workspaceId: Id,
    email: Option<string>,
    phone: Option<string>,
    name: Option<string>)

  datatype Conversation = Conversation(
    id: Id,
    workspaceId: Id,
    contactId: Id,
    status: string,
    lastReadAt: Option<Time>,
    automationPausedUntil: Option<Time>,
    updatedAt: Time)

  datatype Message = Message(
    id: Id,
    workspaceId: Id,
    conversationId: Id,
    direction: Direction,
    channel: Channel,
    body: string,
    subject: Option<string>,
    isAutomated: bool,
    externalId: Option<string>,
    createdAt: Time)

  datatype FormField = FormField(name: string, kind: string)

  /** At most one per workspace (the upsert key). */
  datatype ContactForm = ContactForm(
    workspaceId: Id,
    name: string,
    fields: seq<FormField>,
    welcomeTemplate: string)

  datatype FormTemplate = FormTemplate(
    id: Id,
    workspaceId: Id,
    name: string,
    description: Option<string>,
    fields: seq<FormField>,
    linkedBookingTypeId: Option<Id>)

  datatype FormSubmission = FormSubmission(
    id: Id,
    workspaceId: Id,
    bookingId: Id,
    formTemplateId: Id,
    contactId: Id,
    status: SubmissionStatus,
    data: Option<map<string, string>>,
    dueAt: Time,
    sentAt: Time,
    completedAt: Option<Time>,
    createdAt: Time)

  datatype InventoryItem = InventoryItem(
    id: Id,
    workspaceId: Id,
    name: string,
    quantityAvailable: int,
    quantityUsedPerBooking: int,
    lowStockThreshold: int,
    unit: string)

  /** The JSON config saved by the settings operations. */
  datatype ProviderConfig = ProviderConfig(
    provider: string,
    apiKey: Option<string>,
    fromEmail: Option<string>,
    accountSid: Option<string>,
    authToken: Option<string>,
    phoneNumber: Option<string>)

  /** At most one per (workspace, kind) (the upsert key). */
  datatype Integration = Integration(
    workspaceId: Id,
    kind: Channel,
    provider: string,
    config: ProviderConfig,
    isActive: bool,
    lastError: Option<string>)

  datatype LogMetadata = NoMetadata | ProviderRef(ref: Option<string>) | MockSend

  datatype IntegrationLog = IntegrationLog(
    workspaceId: Id,
    kind: Channel,
    event: string,
    success: bool,
    errorMessage: Option<string>,
    metadata: LogMetadata)

  // Row lookups shared by the services

  /** A user row ties `uid` to workspace `wid`: the membership join of every
      workspace-scoped query. */
  predicate IsMember(users: seq<WorkspaceUser>, wid: Id, uid: Id) {
    exists u :: u in users && u.id == uid && u.workspaceId == wid
  }

  predicate HasWorkspace(workspaces: seq<Workspace>, wid: Id) {
    exists w :: w in workspaces && w.id == wid
  }

  /** The target of an inner join on `contacts`. */
  predicate HasContact(contacts: seq<Contact>, id: Id) {
    exists c :: c in contacts && c.id == id
  }

  /** `SELECT ... FROM workspaces WHERE id = $1`, first row. */
  function FindWorkspace(workspaces: seq<Workspace>, wid: Id): (r: Option<Workspace>)
    ensures r.None? <==> !HasWorkspace(workspaces, wid)
    ensures r.Some? ==> r.value in workspaces && r.value.id == wid
  {
    FirstMatch(workspaces, (w: Workspace) => w.id == wid)
  }

  // Each table's ids lie below a bound.

  predicate WorkspacesBelow(rows: seq<Workspace>, n: nat) {
    forall r :: r in rows ==> r.id < n
  }

  predicate UsersBelow(rows: seq<WorkspaceUser>, n: nat) {
    forall r :: r in rows ==> r.id < n
  }

  predicate BookingTypesBelow(rows: seq<BookingType>, n: nat) {
    forall r :: r in rows ==> r.id < n
  }

  predicate AvailabilityBelow(rows: seq<AvailabilityRow>, n: nat) {
    forall r :: r in rows ==> r.id < n
  }

  predicate BookingsBelow(rows: seq<Booking>, n: nat) {
    forall r :: r in rows ==> r.id < n
  }

  predicate ContactsBelow(rows: seq<Contact>, n: nat) {
    forall r :: r in rows ==> r.id < n
  }

  predicate ConversationsBelow(rows: seq<Conversation>, n: nat) {
    forall r :: r in rows ==> r.id < n
  }

  predicate MessagesBelow(rows: seq<Message>, n: nat) {
    forall r :: r in rows ==> r.id < n
  }

  predicate FormTemplatesBelow(rows: seq<FormTemplate>, n: nat) {
    forall r :: r in rows ==> r.id < n
  }

  predicate SubmissionsBelow(rows: seq<FormSubmission>, n: nat) {
    forall r :: r in rows ==> r.id < n
  }

  predicate InventoryBelow(rows: seq<InventoryItem>, n: nat) {
    forall r :: r in rows ==> r.id < n
  }

  /** Every row id of every table lies below `n`. */
  predicate IdsBelow(workspaces: seq<Workspace>, users: seq<WorkspaceUser>, bookingTypes: seq<BookingType>,
                     availability: seq<AvailabilityRow>, bookings: seq<Booking>, contacts: seq<Contact>,
                     conversations: seq<Conversation>, messages: seq<Message>, formTemplates: seq<FormTemplate>,
                     submissions: seq<FormSubmission>, inventory: seq<InventoryItem>, n: nat)
  {
    && WorkspacesBelow(workspaces, n)
    && UsersBelow(users, n)
    && BookingTypesBelow(bookingTypes, n)
    && AvailabilityBelow(availability, n)
    && BookingsBelow(bookings, n)
    && ContactsBelow(contacts, n)
    && ConversationsBelow(conversations, n)
    && MessagesBelow(messages, n)
    && FormTemplatesBelow(formTemplates, n)
    && SubmissionsBelow(submissions, n)
    && InventoryBelow(inventory, n)
  }

  class Db {
    var workspaces: seq<Workspace>
    var users: seq<WorkspaceUser>
    var bookingTypes: seq<BookingType>
    var availability: seq<AvailabilityRow>
    var bookings: seq<Booking>
    var contacts: seq<Contact>
    var conversations: seq<Conversation>
    var messages: seq<Message>
    var contactForms: seq<ContactForm>
    var formTemplates: seq<FormTemplate>
    var submissions: seq<FormSubmission>
    var inventory: seq<InventoryItem>
    var integrations: seq<Integration>
    var integrationLogs: seq<IntegrationLog>
    var nextId: nat

    /** Every id in use was handed out before `nextId`, so `nextId` is fresh. */
    ghost predicate Valid()
      reads this
    {
      IdsBelow(workspaces, users, bookingTypes, availability, bookings, contacts, conversations, messages,
               formTemplates, submissions, inventory, nextId)
    }

    constructor ()
      ensures Valid() && nextId == 0
      ensures workspaces == [] && users == [] && bookingTypes == [] && availability == []
      ensures bookings == [] && contacts == [] && conversations == [] && messages == []
      ensures contactForms == [] && formTemplates == [] && submissions == []
      ensures inventory == [] && integrations == [] && integrationLogs == []
    {
      workspaces, users, bookingTypes, availability := [], [], [], [];
      bookings, contacts, conversations, messages := [], [], [], [];
      contactForms, formTemplates, submissions := [], [], [];
      inventory, integrations, integrationLogs := [], [], [];
      nextId := 0;
    }

    /** uuidv4(): an id no row uses yet. */
    method NewId() returns (id: Id)
      requires Valid()
      modifies this`nextId
      ensures Valid()
      ensures id == old(nextId) && nextId == id + 1
    {
      id := nextId;
      nextId := nextId + 1;
    }

    /** INSERT of one Workspace row under a fresh id; the given row's id is ignored. */
    method InsertWorkspace(row: Workspace) returns (inserted: Workspace)
      requires Valid()
      modifies this`workspaces, this`nextId
      ensures Valid()
      ensures inserted == row.(id := old(nextId))
      ensures workspaces == old(workspaces) + [inserted] && nextId == old(nextId) + 1
    {
      inserted := row.(id := nextId);
      workspaces := workspaces + [inserted];
      nextId := nextId + 1;
    }

    /** INSERT of one WorkspaceUser row under a fresh id; the given row's id is ignored. */
    method InsertUser(row: WorkspaceUser) returns (inserted: WorkspaceUser)
      requires Valid()
      modifies this`users, this`nextId
      ensures Valid()
      ensures inserted == row.(id := old(nextId))
      ensures users == old(users) + [inserted] && nextId == old(nextId) + 1
    {
      inserted := row.(id := nextId);
      users := users + [inserted];
      nextId := nextId + 1;
    }

    /** INSERT of one BookingType row under a fresh id; the given row's id is ignored. */
    method InsertBookingType(row: BookingType) returns (inserted: BookingType)
      requires Valid()
      modifies this`bookingTypes, this`nextId
      ensures Valid()
      ensures inserted == row.(id := old(nextId))
      ensures bookingTypes == old(bookingTypes) + [inserted] && nextId == old(nextId) + 1
    {
      inserted := row.(id := nextId);
      bookingTypes := bookingTypes + [inserted];
      nextId := nextId + 1;
    }

    /** INSERT of one AvailabilityRow row under a fresh id; the given row's id is ignored. */
    method InsertAvailability(row: AvailabilityRow) returns (inserted: AvailabilityRow)
      requires Valid()
      modifies this`availability, this`nextId
      ensures Valid()
      ensures inserted == row.(id := old(nextId))
      ensures availability == old(availability) + [inserted] && nextId == old(nextId) + 1
    {
      inserted := row.(id := nextId);
      availability := availability + [inserted];
      nextId := nextId + 1;
    }

    /** INSERT of one Booking row under a fresh id; the given row's id is ignored. */
    method InsertBooking(row: Booking) returns (inserted: Booking)
      requires Valid()
      modifies this`bookings, this`nextId
      ensures Valid()
      ensures inserted == row.(id := old(nextId))
      ensures bookings == old(bookings) + [inserted] && nextId == old(nextId) + 1
    {
      inserted := row.(id := nextId);
      bookings := bookings + [inserted];
      nextId := nextId + 1;
    }

    /** INSERT of one Contact row under a fresh id; the given row's id is ignored. */
    method InsertContact(row: Contact) returns (inserted: Contact)
      requires Valid()
      modifies this`contacts, this`nextId
      ensures Valid()
      ensures inserted == row.(id := old(nextId))
      ensures contacts == old(contacts) + [inserted] && nextId == old(nextId) + 1
    {
      inserted := row.(id := nextId);
      contacts := contacts + [inserted];
      nextId := nextId + 1;
    }

    /** INSERT of one Conversation row under a fresh id; the given row's id is ignored. */
    method InsertConversation(row: Conversation) returns (inserted: Conversation)
      requires Valid()
      modifies this`conversations, this`nextId
      ensures Valid()
      ensures inserted == row.(id := old(nextId))
      ensures conversations == old(conversations) + [inserted] && nextId == old(nextId) + 1
    {
      inserted := row.(id := nextId);
      conversations := conversations + [inserted];
      nextId := nextId + 1;
    }

    /** INSERT of one Message row under a fresh id; the given row's id is ignored. */
    method InsertMessage(row: Message) returns (inserted: Message)
      requires Valid()
      modifies this`messages, this`nextId
      ensures Valid()
      ensures inserted == row.(id := old(nextId))
      ensures messages == old(messages) + [inserted] && nextId == old(nextId) + 1
    {
      inserted := row.(id := nextId);
      messages := messages + [inserted];
      nextId := nextId + 1;
    }

    /** INSERT of one FormTemplate row under a fresh id; the given row's id is ignored. */
    method InsertFormTemplate(row: FormTemplate) returns (inserted: FormTemplate)
      requires Valid()
      modifies this`formTemplates, this`nextId
      ensures Valid()
      ensures inserted == row.(id := old(nextId))
      ensures formTemplates == old(formTemplates) + [inserted] && nextId == old(nextId) + 1
    {
      inserted := row.(id := nextId);
      formTemplates := formTemplates + [inserted];
      nextId := nextId + 1;
    }

    /** INSERT of one FormSubmission row under a fresh id; the given row's id is ignored. */
    method InsertSubmission(row: FormSubmission) returns (inserted: FormSubmission)
      requires Valid()
      modifies this`submissions, this`nextId
      ensures Valid()
      ensures inserted == row.(id := old(nextId))
      ensures submissions == old(submissions) + [inserted] && nextId == old(nextId) + 1
    {
      inserted := row.(id := nextId);
      submissions := submissions + [inserted];
      nextId := nextId + 1;
    }

    /** INSERT of one InventoryItem row under a fresh id; the given row's id is ignored. */
    method InsertInventoryItem(row: InventoryItem) returns (inserted: InventoryItem)
      requires Valid()
      modifies this`inventory, this`nextId
      ensures Valid()
      ensures inserted == row.(id := old(nextId))
      ensures inventory == old(inventory) + [inserted] && nextId == old(nextId) + 1
    {
      inserted := row.(id := nextId);
      inventory := inventory + [inserted];
      nextId := nextId + 1;
    }

    /** UPDATE of workspace rows in place: every row keeps its id, so the ids stay below `nextId`. */
    method UpdateWorkspaces(rows: seq<Workspace>)
      requires Valid() && |rows| == |workspaces|
      requires forall i :: 0 <= i < |rows| ==> rows[i].id == workspaces[i].id
      modifies this`workspaces
      ensures Valid() && workspaces == rows
    {
      forall w | w in rows ensures w.id < nextId {
        var k :| 0 <= k < |rows| && rows[k] == w;
        assert workspaces[k] in workspaces;
      }
      workspaces := rows;
    }

    /** UPDATE of booking rows in place: every row keeps its id, so the ids stay below `nextId`. */
    method UpdateBookings(rows: seq<Booking>)
      requires Valid() && |rows| == |bookings|
      requires forall i :: 0 <= i < |rows| ==> rows[i].id == bookings[i].id
      modifies this`bookings
      ensures Valid() && bookings == rows
    {
      forall b | b in rows ensures b.id < nextId {
        var k :| 0 <= k < |rows| && rows[k] == b;
        assert bookings[k] in bookings;
      }
      bookings := rows;
    }
  }
}
