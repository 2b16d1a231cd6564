/** The inbox service: the conversation list with its has_unread flag, one
    conversation, marking it read, and a staff reply sent over email or SMS. */
module Inbox {
  import opened Common
  import opened Seqs
  import opened Store
  import opened Integrations

  // ---------------------------------------------------------------------
  // The latest message and has_unread
  // ---------------------------------------------------------------------

  /** `ORDER BY created_at DESC LIMIT 1` over the conversation's messages; among
      messages of the same time the later-inserted one. */
  function LatestMessage(msgs: seq<Message>, cid: Id): (r: Option<Message>)
    ensures r.None? <==> forall m :: m in msgs ==> m.conversationId != cid
    ensures r.Some? ==> r.value in msgs && r.value.conversationId == cid
    ensures r.Some? ==> forall m :: m in msgs && m.conversationId == cid ==> m.createdAt <= r.value.createdAt
    decreases |msgs|
  {
    if msgs == [] then None
    else
      var init := msgs[..|msgs| - 1];
      var m := msgs[|msgs| - 1];
      assert msgs == init + [m];
      var rest := LatestMessage(init, cid);
      if m.conversationId == cid && (rest.None? || m.createdAt >= rest.value.createdAt) then Some(m) else rest
  }

  /** A missing last_read_at reads as 0 ms. */
  function ReadMs(lastReadAt: Option<Time>): Time {
    if lastReadAt.Some? then lastReadAt.value else 0
  }

  /** has_unread of listConversations: the latest message is inbound and the read
      time is 0 or older than it. */
  predicate HasUnread(last: Option<Message>, lastReadAt: Option<Time>) {
    && last.Some? && last.value.direction == In
    && (ReadMs(lastReadAt) == 0 || last.value.createdAt > ReadMs(lastReadAt))
  }

  /** The three cases of the rule: nothing inbound is never unread; inbound and
      never read is unread; with a (non-zero) read time, unread iff strictly newer. */
  lemma UnreadRule(last: Option<Message>, lastReadAt: Option<Time>)
    ensures (last.None? || last.value.direction == Out) ==> !HasUnread(last, lastReadAt)
    ensures last.Some? && last.value.direction == In && lastReadAt.None? ==> HasUnread(last, lastReadAt)
    ensures last.Some? && lastReadAt.Some? && lastReadAt.value != 0 ==>
      (HasUnread(last, lastReadAt) <==> last.value.direction == In && last.value.createdAt > lastReadAt.value)
  {
  }

  /** A conversation's flag, from its own messages. */
  predicate ConversationUnread(c: Conversation, msgs: seq<Message>) {
    HasUnread(LatestMessage(msgs, c.id), c.lastReadAt)
  }

  // ---------------------------------------------------------------------
  // listConversations and getConversation
  // ---------------------------------------------------------------------

  /** The joins and WHERE clause shared by listConversations and getConversation. */
  predicate InInbox(c: Conversation, contacts: seq<Contact>, users: seq<WorkspaceUser>, wid: Id, uid: Id) {
    c.workspaceId == wid && HasContact(contacts, c.contactId) && IsMember(users, wid, uid)
  }

  /** ORDER BY updated_at DESC. */
  predicate UpdatedNoEarlier(a: Conversation, b: Conversation) {
    a.updatedAt >= b.updatedAt
  }

  datatype ConversationRow = ConversationRow(conversation: Conversation, last: Option<Message>, hasUnread: bool)

  function Row(c: Conversation, msgs: seq<Message>): ConversationRow {
    ConversationRow(c, LatestMessage(msgs, c.id), ConversationUnread(c, msgs))
  }

  /** The conversations listConversations returns: the caller's workspace
      conversations that have their contact, most recently updated first; none
      when the caller is not a user of the workspace. */
  function InboxConversations(convs: seq<Conversation>, contacts: seq<Contact>, users: seq<WorkspaceUser>,
                              wid: Id, uid: Id): (r: seq<Conversation>)
    ensures forall c :: c in r <==> c in convs && InInbox(c, contacts, users, wid, uid)
    ensures forall c :: multiset(r)[c] == if InInbox(c, contacts, users, wid, uid) then multiset(convs)[c] else 0
    ensures SortedBy(r, UpdatedNoEarlier)
    ensures !IsMember(users, wid, uid) ==> r == []
  {
    var rows := Filter(convs, (c: Conversation) => InInbox(c, contacts, users, wid, uid));
    var r := SortBy(rows, UpdatedNoEarlier);
    assert forall x :: x in r <==> x in multiset(r);
    assert forall x :: x in rows <==> x in multiset(rows);
    r
  }

  /** The rows of a list of conversations, in the list's order. */
  function RowsOf(listed: seq<Conversation>, msgs: seq<Message>): (r: seq<ConversationRow>)
    ensures |r| == |listed|
    ensures forall i :: 0 <= i < |r| ==> r[i] == Row(listed[i], msgs)
    ensures forall c :: c in listed ==> exists i :: 0 <= i < |r| && r[i].conversation == c
    ensures SortedBy(listed, UpdatedNoEarlier) ==>
      forall i :: 0 < i < |r| ==> r[i - 1].conversation.updatedAt >= r[i].conversation.updatedAt
  {
    var r := seq(|listed|, i requires 0 <= i < |listed| => Row(listed[i], msgs));
    assert forall c :: c in listed ==> exists i :: 0 <= i < |r| && r[i].conversation == c by {
      forall c | c in listed ensures exists i :: 0 <= i < |r| && r[i].conversation == c {
        var i :| 0 <= i < |listed| && listed[i] == c;
        assert r[i].conversation == c;
      }
    }
    r
  }

  /** listConversations: each listed conversation with its latest message and flag;
      every inbox conversation is listed, the most recently updated first, and a
      caller who is not a user of the workspace gets none. */
  function ListConversations(convs: seq<Conversation>, contacts: seq<Contact>, users: seq<WorkspaceUser>,
                             msgs: seq<Message>, wid: Id, uid: Id): (r: seq<ConversationRow>)
    ensures !IsMember(users, wid, uid) ==> r == []
    ensures forall c :: c in convs && InInbox(c, contacts, users, wid, uid) ==>
      exists i :: 0 <= i < |r| && r[i].conversation == c
    ensures forall i :: 0 < i < |r| ==> r[i - 1].conversation.updatedAt >= r[i].conversation.updatedAt
  {
    var listed := InboxConversations(convs, contacts, users, wid, uid);
    RowsOf(listed, msgs)
  }

  /** Every row's flag is the has_unread rule applied to that conversation's own
      latest message and read time. */
  lemma ListedFlags(convs: seq<Conversation>, contacts: seq<Contact>, users: seq<WorkspaceUser>,
                    msgs: seq<Message>, wid: Id, uid: Id)
    ensures var r := ListConversations(convs, contacts, users, msgs, wid, uid);
      forall i :: 0 <= i < |r| ==>
        && r[i].conversation in convs && InInbox(r[i].conversation, contacts, users, wid, uid)
        && r[i].last == LatestMessage(msgs, r[i].conversation.id)
        && r[i].hasUnread == HasUnread(r[i].last, r[i].conversation.lastReadAt)
  {
    var listed := InboxConversations(convs, contacts, users, wid, uid);
    forall i | 0 <= i < |listed| ensures listed[i] in convs && InInbox(listed[i], contacts, users, wid, uid) {
      assert listed[i] in listed;
    }
  }

  /** getConversation's row: the conversation and its contact. */
  datatype ConversationView = ConversationView(conversation: Conversation, contact: Contact)

  predicate Visible(c: Conversation, contacts: seq<Contact>, users: seq<WorkspaceUser>, wid: Id, uid: Id, cid: Id) {
    c.id == cid && InInbox(c, contacts, users, wid, uid)
  }

  function VisibleAs(contacts: seq<Contact>, users: seq<WorkspaceUser>, wid: Id, uid: Id, cid: Id): Conversation -> bool {
    (c: Conversation) => Visible(c, contacts, users, wid, uid, cid)
  }

  function FindContactById(contacts: seq<Contact>, id: Id): (r: Option<Contact>)
    ensures r.None? <==> !HasContact(contacts, id)
    ensures r.Some? ==> r.value in contacts && r.value.id == id
  {
    FirstMatch(contacts, (k: Contact) => k.id == id)
  }

  /** getConversation: 404 "Conversation not found" unless the conversation is in the
      workspace, has its contact, and the caller is a user of the workspace. */
  function GetConversation(convs: seq<Conversation>, contacts: seq<Contact>, users: seq<WorkspaceUser>,
                           wid: Id, uid: Id, cid: Id): (r: Result<ConversationView>)
    ensures r.Err? <==> forall c :: c in convs ==> !Visible(c, contacts, users, wid, uid, cid)
    ensures r.Err? ==> r.error == Fail(404, "Conversation not found")
    ensures r.Ok? ==>
      && r.value.conversation in convs && r.value.conversation.id == cid && r.value.conversation.workspaceId == wid
      && r.value.contact in contacts && r.value.contact.id == r.value.conversation.contactId
  {
    match FirstMatch(convs, VisibleAs(contacts, users, wid, uid, cid))
    case None => Err(Fail(404, "Conversation not found"))
    case Some(c) =>
      var k := FindContactById(contacts, c.contactId);
      Ok(ConversationView(c, k.value))
  }

  // ---------------------------------------------------------------------
  // markConversationRead
  // ---------------------------------------------------------------------

  /** `UPDATE conversations SET last_read_at = NOW() WHERE id = $1 AND workspace_id = $2`. */
  function MarkRead(convs: seq<Conversation>, cid: Id, wid: Id, now: Time): (r: seq<Conversation>)
    ensures |r| == |convs|
  {
    seq(|convs|, i requires 0 <= i < |convs| =>
      if convs[i].id == cid && convs[i].workspaceId == wid then convs[i].(lastReadAt := Some(now)) else convs[i])
  }

  /** Marking read at a non-zero time clears the flag of the marked conversation
      unless a message of it is newer than that time; other rows are untouched. */
  lemma MarkReadClearsUnread(convs: seq<Conversation>, msgs: seq<Message>, cid: Id, wid: Id, now: Time)
    requires now != 0
    requires forall m :: m in msgs && m.conversationId == cid ==> m.createdAt <= now
    ensures forall i :: 0 <= i < |convs| ==>
      var after := MarkRead(convs, cid, wid, now)[i];
      if convs[i].id == cid && convs[i].workspaceId == wid
      then after.lastReadAt == Some(now) && !ConversationUnread(after, msgs)
      else after == convs[i]
  {
  }

  /** markConversationRead: the lookup's 404, else last_read_at := now. */
  method MarkConversationRead(db: Db, wid: Id, uid: Id, cid: Id, now: Time) returns (failure: Option<AppError>)
    requires db.Valid()
    modifies db`conversations
    ensures db.Valid()
    ensures GetConversation(old(db.conversations), db.contacts, db.users, wid, uid, cid).Err? ==>
      && failure == Some(Fail(404, "Conversation not found"))
      && db.conversations == old(db.conversations)
    ensures GetConversation(old(db.conversations), db.contacts, db.users, wid, uid, cid).Ok? ==>
      && failure.None?
      && db.conversations == MarkRead(old(db.conversations), cid, wid, now)
  {
    var view := GetConversation(db.conversations, db.contacts, db.users, wid, uid, cid);
    if view.Err? {
      return Some(view.error);
    }
    ghost var before := db.conversations;
    db.conversations := MarkRead(db.conversations, cid, wid, now);
    forall c | c in db.conversations ensures c.id < db.nextId {
      var k :| 0 <= k < |db.conversations| && db.conversations[k] == c;
      assert before[k] in before;
    }
    failure := None;
  }

  // ---------------------------------------------------------------------
  // sendReply
  // ---------------------------------------------------------------------

  /** The address check: the chosen channel needs a (non-empty) address. */
  function AddressCheck(channel: Channel, contact: Contact): Option<AppError> {
    if channel == Email && !Present(contact.email) then Some(Fail(400, "Contact has no email"))
    else if channel == Sms && !Present(contact.phone) then Some(Fail(400, "Contact has no phone"))
    else None
  }

  /** The call a reply makes; the email subject defaults to "Message". */
  function ReplyOptions(channel: Channel, contact: Contact, body: string, subject: Option<string>): (o: SendOptions)
    ensures o.Kind() == channel
  {
    match channel
    case Email => EmailOptions(contact.email.GetOr(""), subject.GetOr("Message"), body, None)
    case Sms => SmsOptions(contact.phone.GetOr(""), body)
  }

  /** The outbound row written before delivery: staff-authored, no external id yet. */
  function ReplyMessage(id: Id, wid: Id, cid: Id, channel: Channel, body: string, subject: Option<string>,
                        now: Time): Message
  {
    Message(id, wid, cid, Out, channel, body, subject, false, None, now)
  }

  /** What the delivery returned, as far as the message row is concerned: the
      provider's id only when the send succeeded with a (non-empty) id. */
  function ExternalIdOf(res: SendResult): Option<string> {
    if res.success && Present(res.externalId) then res.externalId else None
  }

  /** `UPDATE messages SET external_id = $1 WHERE id = $2`. */
  function SetExternalId(msgs: seq<Message>, id: Id, ext: Option<string>): (r: seq<Message>)
    ensures |r| == |msgs|
  {
    seq(|msgs|, i requires 0 <= i < |msgs| => if msgs[i].id == id then msgs[i].(externalId := ext) else msgs[i])
  }

  /** With a fresh id, the patch touches only the row just written. */
  lemma SetExternalIdFresh(msgs: seq<Message>, m: Message, ext: Option<string>)
    requires MessagesBelow(msgs, m.id)
    ensures SetExternalId(msgs + [m], m.id, ext) == msgs + [m.(externalId := ext)]
  {
    var r := SetExternalId(msgs + [m], m.id, ext);
    forall i | 0 <= i < |msgs| ensures r[i] == msgs[i] {
      assert msgs[i] in msgs;
    }
  }

  const AutomationPauseMs: int := 24 * HourMs

  /** `UPDATE conversations SET updated_at = NOW(), automation_paused_until = NOW() + 24h WHERE id = $1`. */
  function PauseAutomation(convs: seq<Conversation>, cid: Id, now: Time): (r: seq<Conversation>)
    ensures |r| == |convs|
  {
    seq(|convs|, i requires 0 <= i < |convs| =>
      if convs[i].id == cid then convs[i].(updatedAt := now, automationPausedUntil := Some(now + AutomationPauseMs))
      else convs[i])
  }

  /** `SELECT * FROM messages WHERE id = $1`, first row. */
  function FindMessage(msgs: seq<Message>, id: Id): (r: Option<Message>)
    ensures r.None? <==> forall m :: m in msgs ==> m.id != id
    ensures r.Some? ==> r.value in msgs && r.value.id == id
  {
    FirstMatch(msgs, (m: Message) => m.id == id)
  }

  /** The delivery of one reply, seen through its result. */
  function ReplyResult(rows: seq<Integration>, wid: Id, opts: SendOptions, delivery: Delivery, nowMs: nat): SendResult {
    Dispatch(ActiveIntegration(rows, wid, opts.Kind()), wid, opts, delivery, nowMs).result
  }

  method Deliver(db: Db, wid: Id, opts: SendOptions, delivery: Delivery, nowMs: nat) returns (res: SendResult)
    modifies db`integrationLogs, db`integrations
    ensures res == ReplyResult(old(db.integrations), wid, opts, delivery, nowMs)
    ensures LogsAppended(old(db.integrationLogs), db.integrationLogs, [opts], wid)
    ensures SameButLastError(old(db.integrations), db.integrations)
  {
    var posted;
    res, posted := Send(db, wid, opts, delivery, nowMs);
  }

  /** Reading back the row just appended under a fresh id finds that row. */
  lemma FindAppended(msgs: seq<Message>, m: Message)
    requires MessagesBelow(msgs, m.id)
    ensures FindMessage(msgs + [m], m.id) == Some(m)
  {
    forall i | 0 <= i < |msgs| ensures (msgs + [m])[i].id != m.id {
      assert msgs[i] in msgs;
    }
    FirstMatchAt(msgs + [m], (x: Message) => x.id == m.id, |msgs|);
  }

  /** The insert, the send and the external-id patch of sendReply. */
  method WriteReply(db: Db, wid: Id, cid: Id, channel: Channel, contact: Contact, body: string,
                    subject: Option<string>, delivery: Delivery, now: nat) returns (written: Message)
    requires db.Valid()
    modifies db`messages, db`nextId, db`integrationLogs, db`integrations
    ensures db.Valid()
    ensures written == ReplyMessage(old(db.nextId), wid, cid, channel, body, subject, now).(externalId :=
      ExternalIdOf(ReplyResult(old(db.integrations), wid, ReplyOptions(channel, contact, body, subject), delivery, now)))
    ensures db.messages == old(db.messages) + [written]
    ensures MessagesBelow(old(db.messages), written.id)
    ensures db.nextId == old(db.nextId) + 1
    ensures LogsAppended(old(db.integrationLogs), db.integrationLogs, [ReplyOptions(channel, contact, body, subject)], wid)
    ensures SameButLastError(old(db.integrations), db.integrations)
  {
    var m := db.InsertMessage(ReplyMessage(0, wid, cid, channel, body, subject, now));
    ghost var msgs0 := old(db.messages);
    var res := Deliver(db, wid, ReplyOptions(channel, contact, body, subject), delivery, now);
    written := PatchExternalId(db, msgs0, m, res);
  }

  /** `UPDATE messages SET external_id` on the row just written, when the send
      succeeded with a non-empty provider id. */
  method PatchExternalId(db: Db, ghost msgs0: seq<Message>, m: Message, res: SendResult) returns (written: Message)
    requires db.Valid() && db.messages == msgs0 + [m] && MessagesBelow(msgs0, m.id) && m.externalId.None?
    modifies db`messages
    ensures db.Valid()
    ensures written == m.(externalId := ExternalIdOf(res))
    ensures db.messages == msgs0 + [written]
  {
    if res.success && Present(res.externalId) {
      SetExternalIdFresh(msgs0, m, res.externalId);
      db.messages := SetExternalId(db.messages, m.id, res.externalId);
    } else {
      assert m.(externalId := ExternalIdOf(res)) == m;
    }
    written := m.(externalId := ExternalIdOf(res));
  }

  /** The part of sendReply after the address check. */
  method PostReply(db: Db, wid: Id, cid: Id, channel: Channel, contact: Contact, body: string,
                   subject: Option<string>, delivery: Delivery, now: nat) returns (sent: Message)
    requires db.Valid()
    modifies db`messages, db`nextId, db`conversations, db`integrationLogs, db`integrations
    ensures db.Valid()
    ensures sent == ReplyMessage(old(db.nextId), wid, cid, channel, body, subject, now).(externalId :=
      ExternalIdOf(ReplyResult(old(db.integrations), wid, ReplyOptions(channel, contact, body, subject), delivery, now)))
    ensures db.messages == old(db.messages) + [sent]
    ensures db.conversations == PauseAutomation(old(db.conversations), cid, now)
    ensures db.nextId == old(db.nextId) + 1
    ensures LogsAppended(old(db.integrationLogs), db.integrationLogs, [ReplyOptions(channel, contact, body, subject)], wid)
    ensures SameButLastError(old(db.integrations), db.integrations)
  {
    var written := WriteReply(db, wid, cid, channel, contact, body, subject, delivery, now);
    db.conversations := PauseAutomation(db.conversations, cid, now);
    FindAppended(old(db.messages), written);
    var row := FindMessage(db.messages, written.id);
    sent := row.value;
  }

  /** sendReply: the conversation lookup's 404, the address check's 400 (no row
      written, nothing sent), else one outbound message, the send, the provider's
      id on the message when the send succeeded with one, and automation paused
      for 24 hours whatever the outcome. The returned row is the stored message. */
  method SendReply(db: Db, wid: Id, uid: Id, cid: Id, channel: Channel, body: string, subject: Option<string>,
                   delivery: Delivery, now: nat) returns (r: Result<Message>)
    requires db.Valid()
    modifies db`messages, db`nextId, db`conversations, db`integrationLogs, db`integrations
    ensures db.Valid()
    ensures SameButLastError(old(db.integrations), db.integrations)
    ensures GetConversation(old(db.conversations), db.contacts, db.users, wid, uid, cid).Err? ==>
      && r == Err(Fail(404, "Conversation not found"))
      && db.messages == old(db.messages) && db.conversations == old(db.conversations)
      && db.integrationLogs == old(db.integrationLogs) && db.integrations == old(db.integrations)
      && db.nextId == old(db.nextId)
    ensures GetConversation(old(db.conversations), db.contacts, db.users, wid, uid, cid).Ok? ==>
      var contact := GetConversation(old(db.conversations), db.contacts, db.users, wid, uid, cid).value.contact;
      && (AddressCheck(channel, contact).Some? ==>
            && r == Err(AddressCheck(channel, contact).value)
            && db.messages == old(db.messages) && db.conversations == old(db.conversations)
            && db.integrationLogs == old(db.integrationLogs) && db.integrations == old(db.integrations)
            && db.nextId == old(db.nextId))
      && (AddressCheck(channel, contact).None? ==>
            && r.Ok?
            && r.value == ReplyMessage(old(db.nextId), wid, cid, channel, body, subject, now).(externalId :=
                 ExternalIdOf(ReplyResult(old(db.integrations), wid, ReplyOptions(channel, contact, body, subject),
                                          delivery, now)))
            && db.messages == old(db.messages) + [r.value]
            && db.conversations == PauseAutomation(old(db.conversations), cid, now)
            && db.nextId == old(db.nextId) + 1
            && LogsAppended(old(db.integrationLogs), db.integrationLogs,
                            [ReplyOptions(channel, contact, body, subject)], wid))
  {
    var view := GetConversation(db.conversations, db.contacts, db.users, wid, uid, cid);
    if view.Err? {
      NothingSent(db.integrationLogs, db.integrations, wid);
      return Err(view.error);
    }
    var check := AddressCheck(channel, view.value.contact);
    if check.Some? {
      NothingSent(db.integrationLogs, db.integrations, wid);
      return Err(check.value);
    }
    var sent := PostReply(db, wid, cid, channel, view.value.contact, body, subject, delivery, now);
    r := Ok(sent);
  }

  /** The reply's row carries an external id only when the send succeeded and
      returned a non-empty one. */
  lemma ExternalIdOnlyOnSuccess(res: SendResult)
    ensures ExternalIdOf(res).Some? <==> res.success && Present(res.externalId)
    ensures ExternalIdOf(res).Some? ==> ExternalIdOf(res) == res.externalId
  {
  }
}
