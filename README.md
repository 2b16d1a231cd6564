# service-hub core, modelled in Dafny

service-hub is a multi-tenant booking and operations backend. A business
owner signs up and gets a draft workspace. The owner connects an email or SMS
provider, defines booking types and weekly availability, and activates the
workspace. Visitors can then book slots and send contact-form messages through
public pages. Staff answer conversations from an inbox, track post-booking
forms and keep an inventory. A dashboard and a navigation bar summarise all of
this.

This project models the backend services, the three Express middlewares and
the dashboard navigation bar of the frontend. Each service keeps its own
logic; the relational store it queries is replaced by one in-memory object.

- `Store.Db` is a class with one sequence field per table (workspaces,
  workspace users, booking types, availability, bookings, contacts,
  conversations, messages, contact forms, form templates, form submissions,
  inventory items, integrations, integration logs). It also holds a counter
  `nextId` that hands out fresh ids in place of uuids.
- A service that writes rows is a method that modifies exactly the table
  fields it writes. Its postcondition gives the new tables as a function of
  the old ones, and lemmas about those functions state what the service
  promises.
- A service that only reads is a function with a named result. Its contract
  gives membership, multiplicity and order, or the error cases.
- Loops in the source are loops here, with invariants:
  - the 30-minute walk over availability windows;
  - the insert loop of `setAvailability`;
  - the form-submission fan-out of a public booking.
- Straight-line sequences of steps in the source are sequences of calls
  here, each step with its own contract: the notification sends, and the
  column-by-column build of the `UPDATE workspaces` statement.
- The welcome message's `String.prototype.replace` with a global pattern is
  modelled with JavaScript's replacement patterns: `$$`, `$&`, `` $` `` and
  `$'` in the visitor's name are expanded; any other `$` is copied.
- Timestamps are integers (milliseconds) and calendar dates are day indices.
  Bcrypt, JWT, uuid generation and the provider HTTP calls are parameters:
  `matches`, `verify`, the id counter, and a `Delivery` value that stands for
  the provider's response.

Modules, one per source file:

| module | source |
|---|---|
| Common, Seqs, Text, Clock, Store | shared types, constants and the in-memory store |
| Bookings | `backend/src/services/bookingsService.ts` |
| Workspaces | `backend/src/services/workspaceService.ts` |
| Contacts | `backend/src/services/contactsService.ts` |
| Public | `backend/src/services/publicService.ts` |
| Forms | `backend/src/services/formsService.ts` |
| Inbox | `backend/src/services/inboxService.ts` |
| Dashboard | `backend/src/services/dashboardService.ts` |
| Inventory | `backend/src/services/inventoryService.ts` |
| Auth | `backend/src/services/authService.ts` |
| Integrations | `backend/src/integrations/index.ts` |
| Session | `backend/src/middleware/auth.ts` |
| WorkspaceGuard | `backend/src/middleware/workspaceGuard.ts` |
| ErrorHandler | `backend/src/middleware/errorHandler.ts` |
| Layout | `frontend/src/app/dashboard/layout.tsx` |

## Model

| member | source | states |
|---|---|---|
| Clock.ParseFormat | backend/src/services/bookingsService.ts:146-147 | A stored `HH:MM` window bound, rendered by the database and split on ":", reads back as the same minute of the day |
| Bookings.FindBookingType | backend/src/services/bookingsService.ts:132-136 | Finds a booking type only when one with that id belongs to the workspace; none otherwise |
| Bookings.WindowsFor | backend/src/services/bookingsService.ts:126-131 | The windows used for a date are exactly the workspace's rows for that weekday, either for the type or type-less, each kept as often as stored, in start-time order |
| Bookings.ReadWindowBounds | backend/src/services/bookingsService.ts:146-149 | Parsing a window's start and end yields exactly its stored minutes |
| Bookings.WalkWindows | backend/src/services/bookingsService.ts:145-159 | The nested loop (30-minute steps while `min + duration <= end`) produces exactly the grid slots of the windows, concatenated in window order |
| Bookings.GetAvailableSlots | backend/src/services/bookingsService.ts:119-161 | getAvailableSlots returns the slot list the specification function defines: windows, grid, taken bookings, empty for an unknown type |
| Bookings.GridMembership | backend/src/services/bookingsService.ts:148-157 | A minute is emitted from a window iff it is start + 30k, fits (`m + duration <= end`) and is not taken: the step is 30 whatever the duration |
| Bookings.GridBounds | backend/src/services/bookingsService.ts:146-150 | Every emitted slot starts at or after the window start and ends by the window end; a window shorter than the duration yields nothing |
| Bookings.GridIncreasing | backend/src/services/bookingsService.ts:150-157 | Within one window the slots are strictly increasing |
| Bookings.WindowReadBack | backend/src/services/bookingsService.ts:146-147 | The string round trip of both window bounds is exact |
| Bookings.SlotsForMembership | backend/src/services/bookingsService.ts:145-159 | A slot is in the result iff some window emits it |
| Bookings.NoSlotsWithoutBookingType | backend/src/services/bookingsService.ts:132-136 | A booking type that is not in the workspace gives no slots, whatever availability exists |
| Bookings.WalkOffers | backend/src/services/bookingsService.ts:145-157 | A minute is offered iff some window offers it on the grid and no booking takes it |
| Bookings.AvailableSlotsExactly | backend/src/services/bookingsService.ts:126-157 | For a known type, a slot is available iff an applicable window offers it and no non-cancelled booking of the type that day is scheduled at exactly that instant |
| Bookings.MondayMorningSlots | backend/src/services/bookingsService.ts:138-157 | A 09:00-10:00 window with a 30-minute type offers 09:00 and 09:30, each dropped only if taken |
| Bookings.EmptyDayOffersBothSlots | backend/src/services/bookingsService.ts:148-157 | With no bookings both grid slots are offered |
| Bookings.ConfirmedBookingRemovesItsSlot | backend/src/services/bookingsService.ts:138-156 | A confirmed booking at 09:30 removes exactly that slot |
| Bookings.PartialOverlapIsNotAConflict | backend/src/services/bookingsService.ts:143-156 | A booking at 09:15 overlaps both slots but removes neither: only exact matches are excluded |
| Bookings.CancelledBookingFreesItsSlot | backend/src/services/bookingsService.ts:138-142 | A cancelled booking does not take its slot |
| Bookings.OverlappingWindowsRepeatSlots | backend/src/services/bookingsService.ts:145-159 | Windows are concatenated without de-duplication, so a repeated window repeats its slots |
| Bookings.ListAvailability | backend/src/services/bookingsService.ts:36-44 | listAvailability returns exactly the rows of the scope (the type, or the type-less rows when none is given), with their multiplicity, ordered by day then start time |
| Bookings.NewRowsInScope | backend/src/services/bookingsService.ts:59-65 | Every inserted row is in the requested scope and gets a fresh id |
| Bookings.NewRowsSnoc | backend/src/services/bookingsService.ts:59-65 | Each loop iteration appends the row for the next slot, in slot order |
| Bookings.OutsideScope | backend/src/services/bookingsService.ts:55-58 | The DELETE keeps exactly the rows outside the scope |
| Bookings.ReplacedScopeIsSlots | backend/src/services/bookingsService.ts:55-66 | After the replace, the rows in scope are exactly the given slots, in order |
| Bookings.ReplacedOtherScopes | backend/src/services/bookingsService.ts:55-58 | The rows of every other scope and workspace are unchanged |
| Bookings.ClearedScopeLeavesWorkspaceWindows | backend/src/services/bookingsService.ts:55-58 | Clearing a type's availability leaves only the type-less windows for slot generation |
| Bookings.InsertSlots | backend/src/services/bookingsService.ts:59-65 | The insert loop appends one row per slot and consumes one id per slot |
| Bookings.SetAvailability | backend/src/services/bookingsService.ts:46-67 | setAvailability replaces the scope's rows and returns the scope's listing |
| Bookings.ListBookings | backend/src/services/bookingsService.ts:69-103 | listBookings keeps exactly the workspace's bookings with both joins, within the optional from/to bounds and status, each as often as stored, ordered by scheduled time |
| Bookings.SetBookingStatus | backend/src/services/bookingsService.ts:111-114 | Only the booking with that id in that workspace changes, and only its status |
| Bookings.LastStatusWins | backend/src/services/bookingsService.ts:111-114 | Any status can be overwritten by any other: two updates equal the last one |
| Bookings.FirstBooking | backend/src/services/bookingsService.ts:111-115 | The RETURNING row exists iff a booking matches the id and workspace |
| Bookings.UpdateBookingStatus | backend/src/services/bookingsService.ts:105-117 | 404 "Booking not found" and no change without a match; otherwise the update and the updated row |
| Bookings.CreateBookingType | backend/src/services/bookingsService.ts:17-34 | A new type with a fresh id, `is_online` defaulting to false, appended and read back |
| Workspaces.GetWorkspace | backend/src/services/workspaceService.ts:8-17 | The workspace is returned iff it exists and the user is a member; otherwise 404 "Workspace not found" |
| Workspaces.Readiness | backend/src/services/workspaceService.ts:118-150 | The workspace step is always done; emailOrSms is either flag; active is status == active; each other step (contact form, booking types, post-booking forms, inventory, staff, availability) is exactly whether the workspace has such a row; canActivate holds iff a channel is connected and the workspace has a booking type and an availability row |
| Workspaces.OnboardingStatus | backend/src/services/workspaceService.ts:118-150 | 404 "Workspace not found" iff the workspace is missing or the caller is not its member; otherwise the caller's workspace row, with each optional step telling whether the workspace has such a row, and canActivate iff a channel is connected and the workspace has a booking type and an availability row |
| Workspaces.ReadyMonotone | backend/src/services/workspaceService.ts:132-148 | Adding booking types or availability rows never takes readiness away |
| Workspaces.ReadySurvivesWrites | backend/src/services/workspaceService.ts:44-69 | Connecting a channel, a status write and a patch never take readiness away from any workspace row |
| Workspaces.OptionalStepsDoNotGate | backend/src/services/workspaceService.ts:130-148 | Contact form, post-booking forms, inventory and staff never change canActivate |
| Workspaces.SetWorkspaceStatusEffect | backend/src/services/workspaceService.ts:160-162 | The status write touches only that workspace's status; ids and channel flags are unchanged |
| Workspaces.SetWorkspaceStatusIdempotent | backend/src/services/workspaceService.ts:160-162 | Writing the same status twice equals writing it once |
| Workspaces.ActivateWorkspace | backend/src/services/workspaceService.ts:152-164 | Lookup errors pass through; not ready gives 400 with the fixed message and no change; otherwise status becomes active and the active row is returned |
| Workspaces.ActivationRepeatable | backend/src/services/workspaceService.ts:160-162 | Activating a ready workspace again keeps it ready and active and changes nothing further |
| Workspaces.FindIntegration | backend/src/services/workspaceService.ts:60-65 | Finds a row of the (workspace, type) key exactly when one exists |
| Workspaces.UpsertKeepsKeysUnique | backend/src/services/workspaceService.ts:60-65 | The upsert keeps at most one integration row per (workspace, type) |
| Workspaces.UpsertSetsKey | backend/src/services/workspaceService.ts:60-65 | After the upsert the key's row is active with the new provider and config, keeping its last error |
| Workspaces.UpsertLeavesOtherKeys | backend/src/services/workspaceService.ts:60-65 | Every other (workspace, type) key reads back as before |
| Workspaces.FlagsNeverReset | backend/src/services/workspaceService.ts:66-69 | Connecting a channel sets its flag; no write in the service (connect, status, patch) ever clears a connected flag |
| Workspaces.SetIntegration | backend/src/services/workspaceService.ts:54-90 | Without access nothing changes; otherwise the upsert, the connected flag and the re-read workspace with that flag set |
| Workspaces.SetEmailIntegration | backend/src/services/workspaceService.ts:54-71 | Without access the lookup's 404 is returned and nothing changes; otherwise the email config is upserted and `email_connected` is set |
| Workspaces.SetSmsIntegration | backend/src/services/workspaceService.ts:73-90 | Without access the lookup's 404 is returned and nothing changes; otherwise the SMS config is upserted and `sms_connected` is set |
| Workspaces.PushIfPassed | backend/src/services/workspaceService.ts:28-43 | One `if (data.x !== undefined)` step keeps the statement built so far consistent with the fields seen |
| Workspaces.BuildUpdate | backend/src/services/workspaceService.ts:25-50 | The statement assigns exactly the passed fields, in column order, with placeholders $1..$n, and the id is $n+1 |
| Workspaces.ApplyPatchLaws | backend/src/services/workspaceService.ts:44-50 | An empty patch changes nothing, and applying a patch twice equals applying it once |
| Workspaces.UpdateWorkspace | backend/src/services/workspaceService.ts:19-52 | 404 without access; otherwise the passed fields are written to that workspace only and the row is re-read |
| Workspaces.AddStaff | backend/src/services/workspaceService.ts:178-204 | 404 without access; 400 for an email already in that workspace; otherwise one staff user appended with a fresh id; per-workspace email uniqueness is preserved |
| Workspaces.UpsertContactFormEffect | backend/src/services/workspaceService.ts:92-111 | The workspace's contact form is replaced by the new one and other workspaces' forms are untouched |
| Workspaces.CreateOrUpdateContactForm | backend/src/services/workspaceService.ts:92-111 | 404 without access; otherwise the form saved with the defaults "Contact", the default fields and "" |
| Contacts.FindContact | backend/src/services/contactsService.ts:38-41 | A contact matches when it is in the workspace and its email or its phone equals the key |
| Contacts.FillRows | backend/src/services/contactsService.ts:43-46 | The COALESCE update keeps every row's id and workspace and leaves rows with another id unchanged |
| Contacts.Resolve | backend/src/services/contactsService.ts:36-54 | The key is email ?? phone; absent or empty is 400 and no write; a match returns the first matching contact's id with created=false and applies the COALESCE update to the rows with that id; no match appends a new contact with a fresh id and created=true |
| Contacts.EmptyEmailShadowsPhone | backend/src/services/contactsService.ts:36-37 | An empty email is still chosen over a phone, so the call fails with 400 |
| Contacts.ResolveFillsGaps | backend/src/services/contactsService.ts:42-47 | Fill gaps, never erase: every row keeps its id and workspace, a stored field stays set, a field not supplied keeps its value, rows of other contacts are untouched, and the matched contact takes every supplied value |
| Contacts.FilledStillFound | backend/src/services/contactsService.ts:38-46 | After the COALESCE update, the same key still finds the same contact |
| Contacts.ResolvedIsFound | backend/src/services/contactsService.ts:36-54 | After a successful resolve, looking the key up again finds the returned id |
| Contacts.FillTwice | backend/src/services/contactsService.ts:43-46 | The COALESCE update is idempotent |
| Contacts.ResolveTwice | backend/src/services/contactsService.ts:36-54 | A second call with the same key returns the same id, creates nothing and, with the same data, changes nothing |
| Contacts.FindOrCreateContact | backend/src/services/contactsService.ts:32-55 | The method performs the resolve on the contacts table and consumes an id only when it creates |
| Contacts.FindConversation | backend/src/services/contactsService.ts:58-62 | Finds the workspace's conversation with the contact exactly when one exists |
| Contacts.OpenConversation | backend/src/services/contactsService.ts:57-69 | Returns the existing conversation's id, or appends a new open one with the fresh id; afterwards the lookup finds the returned id |
| Contacts.OpenConversationTwice | backend/src/services/contactsService.ts:57-69 | A second call returns the same id and changes nothing |
| Contacts.OpenKeepsOnePerContact | backend/src/services/contactsService.ts:57-69 | At most one conversation per (workspace, contact) is preserved |
| Contacts.GetOrCreateConversation | backend/src/services/contactsService.ts:57-69 | The method performs that get-or-create on the conversations table |
| Integrations.ActiveIntegration | backend/src/integrations/index.ts:26-29 | Finds an active row of the type for the workspace exactly when one exists |
| Integrations.Dispatch | backend/src/integrations/index.ts:22-124 | No integration gives failure and a "not configured" log. "mock" succeeds with a "mock-" id. "resend"/"twilio" with credentials is the only case that calls the provider. An ok response succeeds with its id; a failed one fails with the provider's message or the fallback; a throw fails with its message. Anything else is "Unknown provider". The log's success always equals the result's |
| Integrations.DeliveryOnlyMattersWhenCalled | backend/src/integrations/index.ts:30-64 | When no request is made, the provider response cannot affect the outcome |
| Integrations.MissingCredentialsIsUnknownProvider | backend/src/integrations/index.ts:36-64 | A named provider without its credentials falls through to the unknown-provider failure |
| Integrations.RecordError | backend/src/integrations/index.ts:139-144 | The last-error update keeps the number of integration rows |
| Integrations.RecordErrorEffect | backend/src/integrations/index.ts:139-144 | `last_error` changes only for a failed event with a message, only on that (workspace, type) row, and then to that message |
| Integrations.RecordErrorKeepsKeys | backend/src/integrations/index.ts:139-144 | Keys stay unique, and a successful event leaves the integrations untouched |
| Integrations.RecordErrorOnlyLastError | backend/src/integrations/index.ts:139-144 | Logging changes no integration field but `last_error` |
| Integrations.LogIntegration | backend/src/integrations/index.ts:126-145 | One log row is appended, and `last_error` is updated as above |
| Integrations.Send | backend/src/integrations/index.ts:22-124 | sendEmail/sendSms: the result and request are the dispatch's; exactly one log row of that workspace and type is appended; only `last_error` may change |
| Store.FindWorkspace | backend/src/services/publicService.ts:30-34 | Finds the workspace exactly when its id exists; the same lookup serves login's workspace join |
| Public.Notifications | backend/src/services/publicService.ts:60-69 | An email is sent iff an email is given and the channel is on; an SMS iff a phone is given and on, with the body cut to 160 characters |
| Public.SendBestEffort | backend/src/services/publicService.ts:60-69 | A send adds one log row of its workspace and type, whatever the result |
| Public.Notify | backend/src/services/publicService.ts:60-69 | The sends made are exactly the planned notifications, one log row each, and the results are ignored |
| Public.WelcomeTemplate | backend/src/services/publicService.ts:53-57 | Without a contact form of the workspace the default welcome text; otherwise the template of a stored form of that workspace, kept even when empty |
| Public.WelcomeBody | backend/src/services/publicService.ts:58 | Every "{name}" is replaced by the name, or "there" without one; when the name has no "$" this is plain replacement of every occurrence |
| Public.WelcomeFirstPlaceholder | backend/src/services/publicService.ts:58 | The text before the first "{name}" is kept, that occurrence becomes the expanded name, and the scan resumes after it |
| Public.WelcomeSplitsAtPlaceholder | backend/src/services/publicService.ts:58 | With a "$"-free name, the first placeholder becomes the name and the rest of the template is processed the same way |
| Public.WelcomeDollarAmpersand | backend/src/services/publicService.ts:58 | A name "$&" puts the matched "{name}" back, so "Hi {name}" is sent unchanged |
| Public.WelcomeDoubleDollar | backend/src/services/publicService.ts:58 | A name "A$$B" arrives as "A$B" |
| Text.Expand | backend/src/services/publicService.ts:58 | A replacement without "$" is inserted as written |
| Text.ReplaceJsLiteral | backend/src/services/publicService.ts:58 | For a replacement without "$", the global replace equals plain replacement of every non-overlapping occurrence, left to right |
| Text.ReplaceJsSkips | backend/src/services/publicService.ts:58 | A prefix that holds no occurrence is copied unchanged |
| Public.WelcomeWithoutPlaceholder | backend/src/services/publicService.ts:58 | A template without "{name}" is sent as written, whatever the name |
| Public.WelcomeBodyExample | backend/src/services/publicService.ts:58 | "{name}" is replaced, and a missing name reads "there" |
| Public.EmptyTemplateSendsEmptyWelcome | backend/src/services/publicService.ts:53-58 | A stored empty template is kept (`??` only replaces null), so the welcome body is empty |
| Public.TouchConversation | backend/src/services/publicService.ts:48-51 | Rows with that id get `updated_at` = now and no other change; every other row is unchanged |
| Public.RecordInbound | backend/src/services/publicService.ts:42-51 | One inbound email-channel message is appended and the conversation is touched |
| Public.Inbound | backend/src/services/publicService.ts:40-51 | Get-or-create of the conversation, then the inbound message |
| Public.Converse | backend/src/services/publicService.ts:40-69 | The inbound message, then exactly the welcome notifications gated per channel by the workspace flags: one log row of the workspace per send, appended after the old logs, and no integration field but `last_error` changed |
| Public.SubmitContactForm | backend/src/services/publicService.ts:26-72 | 404 "Workspace not found" writes nothing and consumes no id. The contact is resolved, and a resolve error stops everything after it, leaving the integrations and the id counter as they were. Otherwise one inbound message and the gated welcome sends, returning the contact's id; in every case the only integration change is the sends' log rows and `last_error` |
| Public.PendingSubmissions | backend/src/services/publicService.ts:146-153 | One submission row per linked template |
| Public.PendingSubmissionsShape | backend/src/services/publicService.ts:141-153 | Every row is pending, due now + 7 days, for this booking and contact, from a template linked to the type or to none |
| Public.LinkedTemplatesCovered | backend/src/services/publicService.ts:141-153 | Every template linked to the type, or to no type, gets a submission |
| Public.OnePendingPerLinkedTemplate | backend/src/services/publicService.ts:141-153 | No template gets two submissions, and unlinked templates get none |
| Public.InsertPending | backend/src/services/publicService.ts:146-153 | The loop appends exactly those submissions with consecutive fresh ids |
| Public.BookingGate | backend/src/services/publicService.ts:103-108 | 404 for an unknown workspace, 400 "Bookings are not open" unless it is active, nothing otherwise |
| Public.FollowUp | backend/src/services/publicService.ts:123-155 | After the insert: 400 "Invalid booking type" with no sends, no submissions, no id consumed and the integrations untouched; otherwise the confirmations, the submissions and the result. The sends append their log rows and change at most `last_error` |
| Public.Book | backend/src/services/publicService.ts:116-153 | The confirmed booking row takes the next id and is appended; the follow-up then runs for that booking; an invalid type leaves the integrations untouched |
| Public.CreateBookingPublic | backend/src/services/publicService.ts:92-156 | A gate failure writes nothing and consumes no id. A contact error stops before the booking, leaving the integrations and the id counter as they were. Otherwise a confirmed booking at the requested time is inserted (with no slot check) before the type is checked, then the follow-up; the only integration change is the sends' log rows and `last_error` |
| Forms.CreateFormTemplate | backend/src/services/formsService.ts:20-44 | A new template with a fresh id, fields defaulting to [] and no linked type, appended and read back |
| Forms.ListFormSubmissions | backend/src/services/formsService.ts:46-72 | Exactly the workspace's submissions with their joins and the optional status, each as often as stored, newest first |
| Forms.StatusFilterNarrows | backend/src/services/formsService.ts:65-68 | The status filter keeps exactly the unfiltered list's rows with that status |
| Forms.GetFormSubmission | backend/src/services/formsService.ts:74-86 | The first submission visible to the caller (that id, that workspace, its contact and template present, the caller a member), or 404 "Form submission not found" when none is |
| Forms.OutsiderGetsNotFound | backend/src/services/formsService.ts:74-84 | A non-member always gets 404 |
| Forms.FindSubmission | backend/src/services/formsService.ts:89-93 | Finds the submission by id exactly when it exists |
| Forms.SubmitForm | backend/src/services/formsService.ts:88-101 | 404 "Form not found" for an unknown id; 400 "Form already completed" with no change; otherwise data stored, status completed and completed_at set on that row only |
| Forms.OpenSubmissionCompletes | backend/src/services/formsService.ts:95-99 | A pending or overdue submission is accepted |
| Forms.CompletionIsTerminal | backend/src/services/formsService.ts:95-99 | After a completion every further submit of that id fails with 400 and changes nothing |
| Forms.SubmitFormPublic | backend/src/services/formsService.ts:88-101 | The method performs SubmitForm on the submissions table |
| Inbox.LatestMessage | backend/src/services/inboxService.ts:10-12 | The conversation's message with the latest creation time, none without messages |
| Inbox.UnreadRule | backend/src/services/inboxService.ts:21-23 | Never unread when the last message is outgoing or missing; unread when inbound and never read; otherwise unread iff newer than the read time |
| Inbox.InboxConversations | backend/src/services/inboxService.ts:7-19 | Exactly the workspace's conversations with their contact, for a member only, each as often as stored, most recently updated first |
| Inbox.ListedFlags | backend/src/services/inboxService.ts:20-25 | Each listed row carries its conversation's latest message and the has_unread flag of that rule |
| Inbox.ListConversations | backend/src/services/inboxService.ts:6-26 | A non-member gets no rows; every conversation of the workspace with its contact is listed; the rows run from the most recently updated down |
| Inbox.FindContactById | backend/src/services/inboxService.ts:30-32 | Finds the contact by id exactly when it exists |
| Inbox.GetConversation | backend/src/services/inboxService.ts:28-39 | The workspace's conversation with its contact for a member, else 404 "Conversation not found" |
| Inbox.MarkReadClearsUnread | backend/src/services/inboxService.ts:43-46 | Marking read sets last_read_at on that conversation only and clears its unread flag |
| Inbox.MarkConversationRead | backend/src/services/inboxService.ts:41-47 | 404 and no change for an invisible conversation; otherwise the read-time update |
| Inbox.ReplyOptions | backend/src/services/inboxService.ts:79-87 | The send goes to the chosen channel |
| Inbox.SetExternalIdFresh | backend/src/services/inboxService.ts:89-91 | Patching the new message's id touches only that message |
| Inbox.FindMessage | backend/src/services/inboxService.ts:96-97 | Finds the message by id exactly when it exists |
| Inbox.Deliver | backend/src/services/inboxService.ts:78-87 | The reply's send appends one log row of its channel and workspace, keeps the old log rows, and changes only `last_error` |
| Inbox.FindAppended | backend/src/services/inboxService.ts:96-97 | The final SELECT finds the message just written |
| Inbox.WriteReply | backend/src/services/inboxService.ts:71-91 | One outgoing message takes the next id and is appended before delivery; its external id is set only when delivery succeeded with an id; one log row of the reply's channel is appended and only `last_error` changes |
| Inbox.PatchExternalId | backend/src/services/inboxService.ts:89-91 | The external-id update rewrites the new message only |
| Inbox.PostReply | backend/src/services/inboxService.ts:71-97 | The message, the delivery (one log row of its channel, only `last_error` changed) and the 24-hour automation pause whatever the outcome, returning the stored message |
| Inbox.SendReply | backend/src/services/inboxService.ts:58-98 | 404 for an invisible conversation and 400 "Contact has no email/phone" write nothing and consume no id; otherwise exactly one outgoing message under the next id, one log row of the chosen channel appended to the old ones, and the pause; integrations change only in `last_error` |
| Inbox.ExternalIdOnlyOnSuccess | backend/src/services/inboxService.ts:89 | An external id is stored iff the send succeeded and returned one |
| Dashboard.NavRuleMatchesHasUnread | backend/src/services/dashboardService.ts:92-97 | With whole-millisecond timestamps, the inbox nav count's rule implies has_unread, and the two agree unless last_read_at is the epoch |
| Dashboard.ReadAtEpochCountsDiffer | backend/src/services/dashboardService.ts:96-97 | With last_read_at at the epoch, the list (which treats a read time of 0 as never read) shows the conversation unread but the nav count does not count it |
| Dashboard.InboxCount | backend/src/services/dashboardService.ts:91-99 | Zero iff no conversation of the workspace is unread by the nav rule; never more than the conversations |
| Dashboard.BookingsCount | backend/src/services/dashboardService.ts:100-103 | Zero iff no booking of the workspace is confirmed |
| Dashboard.GetNavCounts | backend/src/services/dashboardService.ts:85-109 | Each badge is at most its table's size, and zero iff nothing of the workspace is waiting: no conversation unread by the nav rule, no confirmed booking |
| Dashboard.LeavingConfirmedLowersBadge | backend/src/services/dashboardService.ts:101 | Moving a confirmed booking to another status lowers the bookings count |
| Dashboard.StatusChangeNoMore | backend/src/services/dashboardService.ts:101 | A status change to anything but confirmed never raises the count |
| Dashboard.TodayBookings | backend/src/services/dashboardService.ts:15-23 | Exactly today's non-cancelled bookings with both joins, as often as stored, in time order |
| Dashboard.TakeEarliest | backend/src/services/dashboardService.ts:30 | LIMIT on a sorted list leaves out only bookings no earlier than every kept one |
| Dashboard.UpcomingSorted | backend/src/services/dashboardService.ts:24-30 | Exactly the non-cancelled bookings after the end of tomorrow, in time order |
| Dashboard.UpcomingBookings | backend/src/services/dashboardService.ts:24-32 | At most 10 such bookings, sorted; any left out means ten earlier ones were kept |
| Dashboard.TodayIsNotUpcoming | backend/src/services/dashboardService.ts:20-29 | No booking is on both lists |
| Dashboard.TomorrowIsOnNeitherList | backend/src/services/dashboardService.ts:10-31 | A booking tomorrow before 23:59:59 is on neither list |
| Dashboard.TodayCountsMatchTodayList | backend/src/services/dashboardService.ts:33-39 | completedToday and noShowToday equal the counts of those statuses in the today list |
| Dashboard.TodayCount | backend/src/services/dashboardService.ts:33-39 | Zero iff no booking of the workspace today has that status |
| Dashboard.OpenCount | backend/src/services/dashboardService.ts:40-43 | Zero iff the workspace has no open conversation |
| Dashboard.FormCountsCoverWorkspace | backend/src/services/dashboardService.ts:44-51 | Pending + overdue + completed counts add up to all of the workspace's submissions |
| Dashboard.FormCount | backend/src/services/dashboardService.ts:44-51 | Zero iff no submission of the workspace has that status |
| Dashboard.LowStock | backend/src/services/dashboardService.ts:52-56 | Exactly the items at or below their own threshold |
| Dashboard.LowStockSameRows | backend/src/services/dashboardService.ts:52-56 | The dashboard's low-stock rows are the inventory service's low-stock rows, up to order |
| Dashboard.GetDashboard | backend/src/services/dashboardService.ts:4-83 | Each panel is its query: today's and the upcoming bookings, the two status counts of today, the open conversations, the three form counts and the low-stock items. No booking is both today and upcoming, at most 10 are upcoming, the form counts add up to the workspace's submissions, and lowStock holds exactly the workspace's items at or below threshold |
| Inventory.LexTotal | backend/src/services/inventoryService.ts:10-14 | The name order compares any two names, so the listing is well defined |
| Inventory.ListInventory | backend/src/services/inventoryService.ts:5-15 | Exactly the workspace's items, as often as stored, ordered by name |
| Inventory.FindItem | backend/src/services/inventoryService.ts:46-47 | Finds the item by id exactly when it exists |
| Inventory.CreateInventoryItem | backend/src/services/inventoryService.ts:17-48 | A new item with a fresh id and the defaults 1, 5 and "unit", appended and read back |
| Inventory.UpdateItem | backend/src/services/inventoryService.ts:50-62 | 404 "Inventory item not found" and no change without a matching id and workspace; otherwise only supplied fields change, on matching rows only |
| Inventory.EmptyUpdateChangesNothing | backend/src/services/inventoryService.ts:56-58 | An update with neither field changes no item |
| Inventory.UpdateInventoryItem | backend/src/services/inventoryService.ts:50-62 | The method performs UpdateItem on the inventory table |
| Inventory.LowStockItems | backend/src/services/inventoryService.ts:64-72 | Exactly the items at or below their threshold, as often as stored, scarcest first |
| Inventory.UpdateIntoLowStock | backend/src/services/inventoryService.ts:56-70 | Lowering an item's quantity to its threshold or below puts it on the low-stock list |
| Auth.RegisterOwner | backend/src/services/authService.ts:12-55 | 400 "Email already registered" for an email used in any workspace, with no write; otherwise one draft workspace (timezone "UTC" by default) and exactly one owner user in it, with fresh ids |
| Auth.Login | backend/src/services/authService.ts:57-88 | Succeeds iff the first user row with that email, a password hash and a workspace exists and the password matches its hash; the session is that user's with its workspace; every failure is the same 401 |
| Auth.LoginTriesFirstCandidate | backend/src/services/authService.ts:65-70 | Only the first matching row's hash is tried: login succeeds iff the password matches that row, and then returns its session |
| Auth.RegisterThenLogin | backend/src/services/authService.ts:20-88 | Signing up and logging in with the same email and password returns the owner's session |
| Auth.GetMe | backend/src/services/authService.ts:90-112 | 404 "User not found" iff no user with a workspace; otherwise the user, permissions defaulting to {}, and the workspace |
| Auth.NoPermissionsByDefault | backend/src/services/authService.ts:105 | A user stored without permissions reads back with none |
| Session.Authenticate | backend/src/middleware/auth.ts:8-19 | A missing header or one not starting "Bearer " is 401; otherwise the token after the first 7 characters is verified, and failure is 401 "Invalid or expired token" |
| Session.BearerRoundTrip | backend/src/middleware/auth.ts:12-19 | "Bearer " + token authenticates exactly as that token verifies |
| Session.SchemeIsCaseSensitive | backend/src/middleware/auth.ts:8-11 | A lower-case "bearer " header is rejected as missing |
| Session.RequireRole | backend/src/middleware/auth.ts:22-30 | Passes iff a user is present with an allowed role; 401 without a user, 403 "Insufficient permissions" otherwise |
| Session.OwnerOnlyRoutes | backend/src/middleware/auth.ts:25-27 | An owner-only route admits owners and refuses staff with 403 |
| WorkspaceGuard.Guard | backend/src/middleware/workspaceGuard.ts:7-19 | 400 without a workspace id or user; 403 iff the user has no membership row in that workspace; otherwise the membership's role |
| WorkspaceGuard.RouteIdWins | backend/src/middleware/workspaceGuard.ts:7 | A route id, even an empty one, is used and the body's id is ignored |
| WorkspaceGuard.GuardIgnoresTokenWorkspace | backend/src/middleware/workspaceGuard.ts:11-14 | The decision depends on the membership table, not the workspace named in the token |
| ErrorHandler.Respond | backend/src/middleware/errorHandler.ts:21-29 | An AppError keeps its status, message and code; any other error is 500 "Internal server error" with no code |
| ErrorHandler.InternalMessagesHidden | backend/src/middleware/errorHandler.ts:22 | Internal errors with different messages give the same response |
| ErrorHandler.ServiceFailuresPassThrough | backend/src/middleware/errorHandler.ts:21-23 | A service's AppError reaches the client unchanged |
| Layout.OverviewExactOnly | frontend/src/app/dashboard/layout.tsx:107 | "/dashboard" is active only on an exact match |
| Layout.NestedPathActive | frontend/src/app/dashboard/layout.tsx:107 | Any other item is active on its own sub-paths |
| Layout.SiblingPathInactive | frontend/src/app/dashboard/layout.tsx:107 | A path that only shares the prefix (href + "x") does not activate the item |
| Layout.IsActive | frontend/src/app/dashboard/layout.tsx:107 | An item is active on its own path, and only on paths that start with its href |
| Layout.BadgeCount | frontend/src/app/dashboard/layout.tsx:106 | An item without a count key shows 0; a badge never exceeds the fetched counts |
| Layout.MenuBadges | frontend/src/constants/index.ts:17-24 | The Inbox item shows the inbox count, the Bookings item the bookings count, and every other item 0 |
| Layout.ShownBadge | frontend/src/app/dashboard/layout.tsx:125-133 | A badge is rendered iff the counts have loaded and the item has a count key, and then reads the badge text of its count |
| Layout.SettledMenuBadges | frontend/src/app/dashboard/layout.tsx:30-40 | Once a refresh has settled, failed or not, exactly the Inbox and Bookings items carry a badge, showing their counts; after a failure the Inbox badge reads "0" |
| Layout.SectionsDiverge | frontend/src/constants/index.ts:17-24 | Any two section hrefs, each followed by "/", differ at some position |
| Layout.OneItemPerSection | frontend/src/app/dashboard/layout.tsx:105-107 | Under a section's path exactly one nav item is active |
| Layout.BadgeText | frontend/src/app/dashboard/layout.tsx:132 | The badge reads "99+" iff the count exceeds 99, otherwise the number in at most two digits |
| Layout.Refreshed | frontend/src/app/dashboard/layout.tsx:30-39 | A failed fetch resets both counts to 0; a successful one shows the fetched counts |
| Layout.FailedRefreshShowsZero | frontend/src/app/dashboard/layout.tsx:37-39 | After a failed refresh every badge reads "0" |

## Left out

- Database: SQL text, the connection pool, migrations, schema constraints and column defaults. Each query is its effect on in-memory tables. The only keys modelled are the upsert keys: (workspace, type) for integrations and the workspace for contact forms.
- `SELECT 1 FROM workspace_users` pre-checks at the head of several services have no effect in the source, so they are not modelled as checks.
- Ids are natural numbers drawn from one counter in place of uuids; an empty-string id is modelled only in the workspace guard (`IdParam.Blank`).
- Foreign calls are parameters: bcrypt (`matches`, and the hash passed in), JWT verification (`verify`), and the provider HTTP response (`Delivery`). The request is returned as a value and not sent; the base64 and form encodings of the SMS request are not modelled.
- Clocks: `now`, the booking's rendered local date in the confirmation text, and `Date.now()` for mock ids are inputs. Dates are UTC day indices; time zones, `toLocaleString` and `toISOString` formatting are not modelled.
- `updated_at` columns are not modelled, except where they order a listing (conversations) or are set (`TouchConversation`, the 24-hour pause).
- Concurrency: `Promise.all` in the dashboard, and the lack of transactions (double bookings, races between check and insert). Every operation is one sequential step.
- SQL ordering ties are broken by table order. `ORDER BY name` is compared by character code; database collation is not modelled.
- Dashboard.LowStock: the query has no ORDER BY and the model keeps table order; only the rows, not their order, are related to the inventory service's list.
- Dashboard: the `alerts` query is left out; the alerts table is not part of this model. The `?? "0"` fallbacks are not modelled, because a COUNT query always returns one row. The joined contact and booking-type names are not copied into the rows.
- Bookings.ListBookings, Forms.ListFormSubmissions, Inbox.InboxConversations: the rows are returned without the joined contact, booking, template and last-message columns, except has_unread and the last message.
- Operations outside the modelled core: listBookingTypes, getOnboardingStatus's HTTP shape, listStaff, getContactForm, listContacts, getContact, getMessages, listFormTemplates, the public form/booking page lookups (getPublicContactForm, getPublicBookingPage), and getConversation beyond its use by the inbox operations.
- Routers, server bootstrap, config and console logging; the frontend beyond the navigation bar (React state, rendering, optimistic list patches).
- Number edge cases: string-to-number parsing of window bounds assumes well-formed "HH:MM" values; JavaScript string lengths are UTF-16 code units but are modelled as characters.
- Integrations.Dispatch: the exception case is a `Delivery.Threw` value; errors thrown by the logging itself are not modelled.
- Workspaces.AddStaff: uniqueness of email is per workspace, as in the source; the global uniqueness that registration checks is not preserved by AddStaff, and login then picks the first matching user in table order.
- Dashboard.NavRuleMatchesHasUnread: timestamps are whole milliseconds. PostgreSQL stores microseconds and the nav count compares those, while has_unread compares `getTime()` milliseconds, so a message later than the read time within the same millisecond is counted by the badge but not flagged in the list; the model cannot express that case.
- Workspaces.UpdateWorkspace: each patch field is either absent or a value. A field sent as JSON `null` passes the `!== undefined` test and writes NULL; writing NULL into a workspace column is not modelled.
- Text.Expand: the numbered and named capture patterns (`$1`, `$<name>`) are copied as written; the welcome pattern has no capture groups, so JavaScript copies them too.
