/** Contact resolution (findOrCreateContact) and the one conversation per
    contact (getOrCreateConversation). A contact is identified inside its
    workspace by a key, the email if one is supplied and the phone otherwise;
    a match updates the stored contact by COALESCE, filling gaps and never
    erasing, and no match inserts a new contact. */
module Contacts {
  import opened Common
  import opened Seqs
  import opened Store

  /** `data.email ?? data.phone`: a supplied email, even "", wins over the phone. */
  function ContactKey(email: Option<string>, phone: Option<string>): Option<string> {
    if email.Some? then email else phone
  }

  /** `workspace_id = $1 AND (email = $2 OR phone = $2)`; a NULL column never equals the key. */
  predicate MatchesKey(c: Contact, wid: Id, key: string) {
    c.workspaceId == wid && (c.email == Some(key) || c.phone == Some(key))
  }

  function KeyedBy(wid: Id, key: string): Contact -> bool {
    (c: Contact) => MatchesKey(c, wid, key)
  }

  /** `existing.rows[0]`: the first contact of the workspace that carries the key. */
  function FindContact(contacts: seq<Contact>, wid: Id, key: string): (r: Option<Contact>)
    ensures r.None? <==> forall c :: c in contacts ==> !MatchesKey(c, wid, key)
    ensures r.Some? ==> r.value in contacts && MatchesKey(r.value, wid, key)
  {
    FirstMatch(contacts, KeyedBy(wid, key))
  }

  /** SQL COALESCE($new, column). */
  function Coalesce<T>(incoming: Option<T>, stored: Option<T>): Option<T> {
    if incoming.Some? then incoming else stored
  }

  /** The SET list of the update: each supplied value overwrites its column, the others stay. */
  function Fill(c: Contact, email: Option<string>, phone: Option<string>, name: Option<string>): Contact {
    c.(name := Coalesce(name, c.name), email := Coalesce(email, c.email), phone := Coalesce(phone, c.phone))
  }

  /** `UPDATE contacts ... WHERE id = $4`. */
  function FillRows(contacts: seq<Contact>, id: Id, email: Option<string>, phone: Option<string>, name: Option<string>)
    : (r: seq<Contact>)
    ensures |r| == |contacts|
    ensures forall i :: 0 <= i < |r| ==> r[i].id == contacts[i].id && r[i].workspaceId == contacts[i].workspaceId
    ensures forall i :: 0 <= i < |r| && contacts[i].id != id ==> r[i] == contacts[i]
  {
    seq(|contacts|, i requires 0 <= i < |contacts| =>
      if contacts[i].id == id then Fill(contacts[i], email, phone, name) else contacts[i])
  }

  datatype Resolution = Resolution(id: Id, created: bool)

  /** What a call does: its result and the contacts table afterwards. */
  datatype Resolved = Resolved(result: Result<Resolution>, contacts: seq<Contact>)

  const KeyRequired: string := "Email or phone required"

  /** findOrCreateContact, with `newId` the id uuidv4() would hand out. */
  function Resolve(contacts: seq<Contact>, wid: Id, email: Option<string>, phone: Option<string>,
                   name: Option<string>, newId: Id): (out: Resolved)
    ensures out.result.Err? <==> !Present(ContactKey(email, phone))
    ensures out.result.Err? ==> out.result.error == Fail(400, KeyRequired) && out.contacts == contacts
    ensures out.result.Ok? ==>
      var found := FindContact(contacts, wid, ContactKey(email, phone).value);
      && (out.result.value.created <==> found.None?)
      && (found.Some? ==>
            out.result.value.id == found.value.id && out.contacts == FillRows(contacts, found.value.id, email, phone, name))
      && (found.None? ==>
            out.result.value.id == newId && out.contacts == contacts + [Contact(newId, wid, email, phone, name)])
  {
    var key := ContactKey(email, phone);
    if !Present(key) then Resolved(Err(Fail(400, KeyRequired)), contacts)
    else
      match FindContact(contacts, wid, key.value)
      case Some(c) => Resolved(Ok(Resolution(c.id, false)), FillRows(contacts, c.id, email, phone, name))
      case None => Resolved(Ok(Resolution(newId, true)), contacts + [Contact(newId, wid, email, phone, name)])
  }

  /** An empty email is a key too: it hides a supplied phone and the call is refused. */
  lemma EmptyEmailShadowsPhone(contacts: seq<Contact>, wid: Id, phone: string, name: Option<string>, newId: Id)
    ensures Resolve(contacts, wid, Some(""), Some(phone), name, newId) ==
      Resolved(Err(Fail(400, KeyRequired)), contacts)
  {
  }

  /** Fill gaps, never erase: every row keeps its id and workspace; a column changes
      only where a value is supplied, so a set column stays set and a column not
      supplied keeps its value; rows other than the resolved contact are untouched;
      on the resolved contact each supplied field takes the supplied value. */
  lemma ResolveFillsGaps(contacts: seq<Contact>, wid: Id, email: Option<string>, phone: Option<string>,
                         name: Option<string>, newId: Id, i: int)
    requires ContactsBelow(contacts, newId)
    requires 0 <= i < |contacts|
    ensures var after := Resolve(contacts, wid, email, phone, name, newId).contacts;
      && i < |after|
      && after[i].id == contacts[i].id && after[i].workspaceId == contacts[i].workspaceId
      && (contacts[i].email.Some? ==> after[i].email.Some?)
      && (contacts[i].phone.Some? ==> after[i].phone.Some?)
      && (contacts[i].name.Some? ==> after[i].name.Some?)
      && (email.None? ==> after[i].email == contacts[i].email)
      && (phone.None? ==> after[i].phone == contacts[i].phone)
      && (name.None? ==> after[i].name == contacts[i].name)
    ensures var out := Resolve(contacts, wid, email, phone, name, newId);
      out.result.Err? || contacts[i].id != out.result.value.id ==> out.contacts[i] == contacts[i]
    ensures var out := Resolve(contacts, wid, email, phone, name, newId);
      out.result.Ok? && contacts[i].id == out.result.value.id ==>
        && (email.Some? ==> out.contacts[i].email == email)
        && (phone.Some? ==> out.contacts[i].phone == phone)
        && (name.Some? ==> out.contacts[i].name == name)
  {
    var out := Resolve(contacts, wid, email, phone, name, newId);
    if out.result.Ok? && !out.result.value.created {
      assert out.contacts == FillRows(contacts, out.result.value.id, email, phone, name);
    } else if out.result.Ok? {
      assert out.contacts[i] == contacts[i];
      assert contacts[i] in contacts;
    }
  }

  /** Filling the contact the key found leaves the key finding a row with its id. */
  lemma FilledStillFound(contacts: seq<Contact>, wid: Id, email: Option<string>, phone: Option<string>,
                         name: Option<string>)
    requires Present(ContactKey(email, phone))
    requires FindContact(contacts, wid, ContactKey(email, phone).value).Some?
    ensures var key := ContactKey(email, phone).value;
      var id := FindContact(contacts, wid, key).value.id;
      var found := FindContact(FillRows(contacts, id, email, phone, name), wid, key);
      found.Some? && found.value.id == id
  {
    var key := ContactKey(email, phone).value;
    var p := KeyedBy(wid, key);
    var id := FindContact(contacts, wid, key).value.id;
    var after := FillRows(contacts, id, email, phone, name);
    var k := FirstMatchLeast(contacts, p);
    assert after[k] == Fill(contacts[k], email, phone, name);
    assert p(after[k]);
    assert FirstMatch(after, p).Some? by { assert after[k] in after; }
    var j := FirstMatchLeast(after, p);
    assert j <= k;
    // a row other than the filled ones is unchanged, so before k it still misses the key
    forall i | 0 <= i < k && contacts[i].id != id ensures !p(after[i]) {
      assert after[i] == contacts[i];
    }
    assert contacts[k].id == id;
    assert contacts[j].id == id by {
      if j < k {
        assert p(after[j]);
      }
    }
    assert after[j] == FindContact(after, wid, key).value;
  }

  /** After a successful call the key finds the returned contact. */
  lemma ResolvedIsFound(contacts: seq<Contact>, wid: Id, email: Option<string>, phone: Option<string>,
                        name: Option<string>, newId: Id)
    requires ContactsBelow(contacts, newId)
    ensures var out := Resolve(contacts, wid, email, phone, name, newId);
      out.result.Ok? ==>
        var found := FindContact(out.contacts, wid, ContactKey(email, phone).value);
        found.Some? && found.value.id == out.result.value.id
  {
    var out := Resolve(contacts, wid, email, phone, name, newId);
    if out.result.Ok? {
      var key := ContactKey(email, phone).value;
      var p := KeyedBy(wid, key);
      var found := FindContact(contacts, wid, key);
      if found.Some? {
        assert out.contacts == FillRows(contacts, found.value.id, email, phone, name);
        FilledStillFound(contacts, wid, email, phone, name);
      } else {
        FirstMatchSnoc(contacts, Contact(newId, wid, email, phone, name), p);
      }
    }
  }

  lemma FillTwice(c: Contact, email: Option<string>, phone: Option<string>, name: Option<string>)
    ensures Fill(Fill(c, email, phone, name), email, phone, name) == Fill(c, email, phone, name)
  {
  }

  /** Filling rows twice with the same values is filling them once. */
  lemma FillRowsTwice(contacts: seq<Contact>, id: Id, email: Option<string>, phone: Option<string>, name: Option<string>)
    ensures FillRows(FillRows(contacts, id, email, phone, name), id, email, phone, name) == FillRows(contacts, id, email, phone, name)
  {
    var once := FillRows(contacts, id, email, phone, name);
    forall i | 0 <= i < |contacts| ensures FillRows(once, id, email, phone, name)[i] == once[i] {
      FillTwice(contacts[i], email, phone, name);
    }
  }

  /** Filling a row just inserted with the values it was inserted with changes nothing. */
  lemma FillInsertedRow(contacts: seq<Contact>, wid: Id, email: Option<string>, phone: Option<string>,
                        name: Option<string>, id: Id)
    requires ContactsBelow(contacts, id)
    ensures var after := contacts + [Contact(id, wid, email, phone, name)];
      FillRows(after, id, email, phone, name) == after
  {
    var after := contacts + [Contact(id, wid, email, phone, name)];
    forall i | 0 <= i < |after| ensures FillRows(after, id, email, phone, name)[i] == after[i] {
      if i < |contacts| {
        assert contacts[i] in contacts;
      }
    }
  }

  /** Repeated calls with the same key return the same contact and add no row;
      repeating the very same call leaves the table as the first call left it. */
  lemma ResolveTwice(contacts: seq<Contact>, wid: Id, email: Option<string>, phone: Option<string>,
                     name: Option<string>, email2: Option<string>, phone2: Option<string>,
                     name2: Option<string>, newId: Id, newId2: Id)
    requires ContactsBelow(contacts, newId)
    requires ContactKey(email2, phone2) == ContactKey(email, phone)
    ensures var first := Resolve(contacts, wid, email, phone, name, newId);
      var second := Resolve(first.contacts, wid, email2, phone2, name2, newId2);
      first.result.Ok? ==>
        && second.result == Ok(Resolution(first.result.value.id, false))
        && |second.contacts| == |first.contacts|
        && (email2 == email && phone2 == phone && name2 == name ==> second.contacts == first.contacts)
  {
    var first := Resolve(contacts, wid, email, phone, name, newId);
    if first.result.Ok? {
      ResolvedIsFound(contacts, wid, email, phone, name, newId);
      var second := Resolve(first.contacts, wid, email2, phone2, name2, newId2);
      var id := first.result.value.id;
      if email2 == email && phone2 == phone && name2 == name {
        if first.result.value.created {
          FillInsertedRow(contacts, wid, email, phone, name, id);
        } else {
          FillRowsTwice(contacts, id, email, phone, name);
        }
      }
    }
  }

  /** findOrCreateContact: the key check, the lookup, then an update or an insert. */
  method FindOrCreateContact(db: Db, wid: Id, email: Option<string>, phone: Option<string>, name: Option<string>)
    returns (r: Result<Resolution>)
    requires db.Valid()
    modifies db`contacts, db`nextId
    ensures db.Valid()
    ensures Resolved(r, db.contacts) == Resolve(old(db.contacts), wid, email, phone, name, old(db.nextId))
    ensures db.nextId == if r.Ok? && r.value.created then old(db.nextId) + 1 else old(db.nextId)
  {
    var key := ContactKey(email, phone);
    if !Present(key) {
      return Err(Fail(400, KeyRequired));
    }
    var existing := FindContact(db.contacts, wid, key.value);
    if existing.Some? {
      db.contacts := FillRows(db.contacts, existing.value.id, email, phone, name);
      assert ContactsBelow(db.contacts, db.nextId) by {
        forall c | c in db.contacts ensures c.id < db.nextId {
          var i :| 0 <= i < |db.contacts| && db.contacts[i] == c;
          assert old(db.contacts)[i] in old(db.contacts);
        }
      }
      return Ok(Resolution(existing.value.id, false));
    }
    var inserted := db.InsertContact(Contact(0, wid, email, phone, name));
    r := Ok(Resolution(inserted.id, true));
  }

  // getOrCreateConversation

  predicate IsConversationOf(c: Conversation, wid: Id, contactId: Id) {
    c.workspaceId == wid && c.contactId == contactId
  }

  function ConversationOf(wid: Id, contactId: Id): Conversation -> bool {
    (c: Conversation) => IsConversationOf(c, wid, contactId)
  }

  /** `r.rows[0]` of the lookup by (workspace, contact). */
  function FindConversation(convs: seq<Conversation>, wid: Id, contactId: Id): (r: Option<Conversation>)
    ensures r.None? <==> forall c :: c in convs ==> !IsConversationOf(c, wid, contactId)
    ensures r.Some? ==> r.value in convs && IsConversationOf(r.value, wid, contactId)
  {
    FirstMatch(convs, ConversationOf(wid, contactId))
  }

  /** At most one conversation per (workspace, contact). */
  predicate OneConversationPerContact(convs: seq<Conversation>) {
    forall i, j :: 0 <= i < j < |convs| ==>
      !(convs[i].workspaceId == convs[j].workspaceId && convs[i].contactId == convs[j].contactId)
  }

  /** The conversation id a call returns and the conversations table afterwards. */
  datatype Opened = Opened(id: Id, conversations: seq<Conversation>)

  /** A new conversation: status 'open', never read, automation not paused. */
  function NewConversation(id: Id, wid: Id, contactId: Id, now: Time): Conversation {
    Conversation(id, wid, contactId, "open", None, None, now)
  }

  /** getOrCreateConversation, with `newId` the id uuidv4() would hand out and
      `now` the insert time the store stamps. */
  function OpenConversation(convs: seq<Conversation>, wid: Id, contactId: Id, newId: Id, now: Time): (out: Opened)
    ensures var found := FindConversation(convs, wid, contactId);
      && (found.Some? ==> out == Opened(found.value.id, convs))
      && (found.None? ==> out == Opened(newId, convs + [NewConversation(newId, wid, contactId, now)]))
    ensures FindConversation(out.conversations, wid, contactId).Some?
    ensures FindConversation(out.conversations, wid, contactId).value.id == out.id
  {
    var found := FindConversation(convs, wid, contactId);
    if found.Some? then Opened(found.value.id, convs)
    else
      var row := NewConversation(newId, wid, contactId, now);
      FirstMatchSnoc(convs, row, ConversationOf(wid, contactId));
      Opened(newId, convs + [row])
  }

  /** A second call returns the same conversation and writes nothing. */
  lemma OpenConversationTwice(convs: seq<Conversation>, wid: Id, contactId: Id, newId: Id, newId2: Id,
                              now: Time, now2: Time)
    ensures var first := OpenConversation(convs, wid, contactId, newId, now);
      OpenConversation(first.conversations, wid, contactId, newId2, now2) == first
  {
  }

  /** The get-or-create keeps at most one conversation per contact. */
  lemma OpenKeepsOnePerContact(convs: seq<Conversation>, wid: Id, contactId: Id, newId: Id, now: Time)
    requires OneConversationPerContact(convs)
    ensures OneConversationPerContact(OpenConversation(convs, wid, contactId, newId, now).conversations)
  {
    var out := OpenConversation(convs, wid, contactId, newId, now).conversations;
    forall i, j | 0 <= i < j < |out|
      ensures !(out[i].workspaceId == out[j].workspaceId && out[i].contactId == out[j].contactId)
    {
      if j == |convs| {
        assert convs[i] in convs;
      }
    }
  }

  /** getOrCreateConversation. */
  method GetOrCreateConversation(db: Db, wid: Id, contactId: Id, now: Time) returns (id: Id)
    requires db.Valid()
    modifies db`conversations, db`nextId
    ensures db.Valid()
    ensures Opened(id, db.conversations) == OpenConversation(old(db.conversations), wid, contactId, old(db.nextId), now)
    ensures db.nextId == if |db.conversations| > |old(db.conversations)| then old(db.nextId) + 1 else old(db.nextId)
  {
    var found := FindConversation(db.conversations, wid, contactId);
    if found.Some? {
      return found.value.id;
    }
    var row := db.InsertConversation(NewConversation(0, wid, contactId, now));
    id := row.id;
  }
}
