/** The routed chat page: a contact list whose entries carry their own
    conversation copies, the displayed message list, and the selected
    contact. A send appends to the displayed list and rewrites the
    selected contact's summary; its scheduled reply does the same and
    adds one unread message. `LoadMessages` is the page's effect that
    reloads the displayed list; the page runs it after every change of
    the selection or of the contact list. */
module ChatPage {
  import opened Base
  import opened MockData

  /** The chat page's canned replies. */
  const ChatReplies: seq<string> :=
    [ "That sounds great!",
      "I agree with you.",
      "Thanks for sharing!",
      "Interesting point of view.",
      "Let me think about that.",
      "Sure, no problem!",
      "I'll get back to you on this.",
      "Sounds like a plan!" ]

  /** A reply scheduled by a send: the contact id selected at send time
      and that contact's name and avatar as they were then. */
  datatype PendingReply = PendingReply(contactId: string, senderName: Option<string>, senderAvatar: Option<string>)

  /** `prev.map(c => c.id === id ? f(c) : c)`. */
  function UpdateMatching(cs: seq<Contact>, id: string, f: Contact -> Contact): (r: seq<Contact>)
    ensures |r| == |cs|
    ensures forall i :: 0 <= i < |cs| && cs[i].id == id ==> r[i] == f(cs[i])
    ensures forall i :: 0 <= i < |cs| && cs[i].id != id ==> r[i] == cs[i]
    decreases |cs|
  {
    if cs == [] then []
    else [if cs[0].id == id then f(cs[0]) else cs[0]] + UpdateMatching(cs[1..], id, f)
  }

  /** The summary rewrite of a send. */
  function WithSent(c: Contact, msg: MessageData): (r: Contact)
    ensures r.id == c.id && r.name == c.name && r.unreadCount == c.unreadCount
    ensures r.lastMessage == msg.text && r.timestamp == "now"
    ensures r.avatar == c.avatar && r.isOnline == c.isOnline && r.isGroup == c.isGroup && r.lastSeen == c.lastSeen
    ensures r.messages == Some(c.messages.GetOr([]) + [msg])
  {
    c.(lastMessage := msg.text, timestamp := "now", messages := Some(c.messages.GetOr([]) + [msg]))
  }

  /** The summary rewrite of a reply: as a send, plus one unread message. */
  function WithReply(c: Contact, msg: MessageData): (r: Contact)
    ensures r.id == c.id && r.name == c.name && r.unreadCount == c.unreadCount + 1
    ensures r.lastMessage == msg.text && r.timestamp == "now"
    ensures r.avatar == c.avatar && r.isOnline == c.isOnline && r.isGroup == c.isGroup && r.lastSeen == c.lastSeen
    ensures r.messages == Some(c.messages.GetOr([]) + [msg])
  {
    c.(lastMessage := msg.text, timestamp := "now", unreadCount := c.unreadCount + 1,
       messages := Some(c.messages.GetOr([]) + [msg]))
  }

  /** The summary rewrites as the functions handed to `UpdateMatching`. */
  function SentUpdate(msg: MessageData): Contact -> Contact {
    c => WithSent(c, msg)
  }

  function ReplyUpdate(msg: MessageData): Contact -> Contact {
    c => WithReply(c, msg)
  }

  function FillerUpdate(generated: seq<MessageData>): Contact -> Contact {
    c => WithFiller(c, generated)
  }

  /** The message a send appends: the user's own and delivered; its read
      flag is left unset. */
  function OwnMessage(id: string, text: string, timestamp: string): (m: MessageData)
    ensures m.text == text && m.isSent && m.isDelivered == Some(true) && m.isRead == None
  {
    MessageData(id, text, timestamp, true, Some(true), None, None, None)
  }

  /** Canned reply number `pick` from the contact captured at send time,
      already delivered and read. */
  function ReplyMessage(p: PendingReply, pick: nat, id: string, timestamp: string): (m: MessageData)
    requires pick < |ChatReplies|
    ensures m.text in ChatReplies && !m.isSent
    ensures m.isDelivered == Some(true) && m.isRead == Some(true)
    ensures m.senderName == p.senderName && m.senderAvatar == p.senderAvatar
  {
    MessageData(id, ChatReplies[pick], timestamp, false, Some(true), Some(true), p.senderName, p.senderAvatar)
  }

  /** What the load effect puts on screen: nothing changes unless a
      contact is selected and listed; then its stored conversation, or the
      generated filler when it has none stored (an empty stored list is
      kept, as `[] || x` is `[]`). */
  function LoadedList(cs: seq<Contact>, selected: Option<string>, generated: seq<MessageData>): (r: Option<seq<MessageData>>)
    ensures r.Some? <==> IsPresent(selected) && FindContact(cs, selected.value).Some?
    ensures r.Some? ==> var c := FindContact(cs, selected.value).value;
                        && (c.messages.Some? ==> r.value == c.messages.value)
                        && (c.messages.None? ==> r.value == generated)
  {
    if IsPresent(selected) then
      match FindContact(cs, selected.value)
      case Some(c) => Some(c.messages.GetOr(generated))
      case None => None
    else None
  }

  /** An update of the contacts with a given id changes what `find` returns
      for that id by the same update, as long as the update keeps ids. */
  lemma {:induction false} FindAfterUpdate(cs: seq<Contact>, id: string, f: Contact -> Contact)
    requires forall c :: f(c).id == c.id
    ensures FindContact(UpdateMatching(cs, id, f), id) ==
            match FindContact(cs, id) case Some(c) => Some(f(c)) case None => None
    decreases |cs|
  {
    if cs != [] {
      var r := UpdateMatching(cs, id, f);
      assert r[1..] == UpdateMatching(cs[1..], id, f);
      FindAfterUpdate(cs[1..], id, f);
    }
  }

  /** Reply updates keep every unread count non-negative. */
  lemma {:induction false} ReplyKeepsUnreadNonNegative(cs: seq<Contact>, id: string, msg: MessageData)
    requires forall i :: 0 <= i < |cs| ==> cs[i].unreadCount >= 0
    ensures forall i :: 0 <= i < |cs| ==> UpdateMatching(cs, id, ReplyUpdate(msg))[i].unreadCount >= 0
  {
    var r := UpdateMatching(cs, id, ReplyUpdate(msg));
    forall i | 0 <= i < |cs|
      ensures r[i].unreadCount >= 0
    {
      if cs[i].id == id {
        assert r[i] == WithReply(cs[i], msg);
      }
    }
  }

  /** As written, the load effect runs again after a send because the
      contact list changed. For a contact with no stored conversation the
      displayed list was the generated filler; the send stores only the new
      message in the contact, and the reload then shows that message
      alone, so the filler the user was looking at disappears. */
  lemma FirstSendDropsHistory(cs: seq<Contact>, id: string, own: MessageData, generated: seq<MessageData>)
    requires id != "" && FindContact(cs, id).Some? && FindContact(cs, id).value.messages.None?
    ensures LoadedList(cs, Some(id), generated) == Some(generated)
    ensures LoadedList(UpdateMatching(cs, id, SentUpdate(own)), Some(id), generated) == Some([own])
  {
    var c := FindContact(cs, id).value;
    FindAfterUpdate(cs, id, SentUpdate(own));
    var after := UpdateMatching(cs, id, SentUpdate(own));
    assert FindContact(after, id) == Some(WithSent(c, own));
    assert c.messages.GetOr([]) + [own] == [own];
    assert LoadedList(after, Some(id), generated) == Some(WithSent(c, own).messages.value);
  }

  /** The corrected load: when the selected contact has no stored
      conversation, the generated filler is stored in the contact as well
      as displayed, so later sends extend what is on screen. */
  function SeededContacts(cs: seq<Contact>, selected: Option<string>, generated: seq<MessageData>): (r: seq<Contact>)
    ensures |r| == |cs|
    ensures forall i :: 0 <= i < |cs| ==> r[i].id == cs[i].id && r[i].unreadCount == cs[i].unreadCount
    ensures forall i :: 0 <= i < |cs| && cs[i].messages.Some? ==> r[i] == cs[i]
    ensures forall i :: 0 <= i < |cs| && !(IsPresent(selected) && cs[i].id == selected.value) ==> r[i] == cs[i]
    ensures forall i :: 0 <= i < |cs| && IsPresent(selected) && cs[i].id == selected.value && cs[i].messages.None? ==>
                        r[i] == cs[i].(messages := Some(generated))
  {
    if IsPresent(selected) then
      UpdateMatching(cs, selected.value, FillerUpdate(generated))
    else cs
  }

  /** A contact keeps its stored conversation, or stores `generated`. */
  function WithFiller(c: Contact, generated: seq<MessageData>): (r: Contact)
    ensures r.id == c.id && r.name == c.name && r.unreadCount == c.unreadCount
    ensures r.lastMessage == c.lastMessage && r.timestamp == c.timestamp
    ensures r.avatar == c.avatar && r.isOnline == c.isOnline && r.isGroup == c.isGroup && r.lastSeen == c.lastSeen
    ensures r.messages == Some(c.messages.GetOr(generated))
  {
    if c.messages.Some? then c else c.(messages := Some(generated))
  }

  /** The displayed list agrees with the selected contact's stored copy. */
  predicate InSync(cs: seq<Contact>, selected: Option<string>, shown: seq<MessageData>) {
    IsPresent(selected) && FindContact(cs, selected.value).Some? &&
    FindContact(cs, selected.value).value.messages == Some(shown)
  }

  /** The corrected load leaves the selected contact storing exactly the
      list it shows. */
  lemma SeedingSyncs(cs: seq<Contact>, id: string, generated: seq<MessageData>)
    requires id != "" && FindContact(cs, id).Some?
    ensures LoadedList(SeededContacts(cs, Some(id), generated), Some(id), generated).Some?
    ensures InSync(SeededContacts(cs, Some(id), generated), Some(id),
                   LoadedList(SeededContacts(cs, Some(id), generated), Some(id), generated).value)
  {
    var c := FindContact(cs, id).value;
    FindAfterUpdate(cs, id, FillerUpdate(generated));
    var seeded := SeededContacts(cs, Some(id), generated);
    assert FindContact(seeded, id) == Some(WithFiller(c, generated));
  }

  /** A send to a contact whose stored copy agrees with the displayed list
      keeps the two in agreement, and the reload that follows shows the
      earlier list with the new message at its end. */
  lemma SendKeepsSync(cs: seq<Contact>, id: string, own: MessageData, shown: seq<MessageData>, generated: seq<MessageData>)
    requires InSync(cs, Some(id), shown)
    ensures InSync(UpdateMatching(cs, id, SentUpdate(own)), Some(id), shown + [own])
    ensures LoadedList(UpdateMatching(cs, id, SentUpdate(own)), Some(id), generated) == Some(shown + [own])
  {
    var c := FindContact(cs, id).value;
    FindAfterUpdate(cs, id, SentUpdate(own));
    assert FindContact(UpdateMatching(cs, id, SentUpdate(own)), id) == Some(WithSent(c, own));
  }

  /** The corrected load establishes agreement; a send keeps it, and the
      reload that follows shows the earlier list with the new message at
      its end. */
  lemma SeededSendKeepsHistory(cs: seq<Contact>, id: string, own: MessageData, generated: seq<MessageData>)
    requires id != "" && FindContact(cs, id).Some?
    ensures var seeded := SeededContacts(cs, Some(id), generated);
            var shown := LoadedList(seeded, Some(id), generated).value;
            && InSync(seeded, Some(id), shown)
            && InSync(UpdateMatching(seeded, id, SentUpdate(own)), Some(id), shown + [own])
            && LoadedList(UpdateMatching(seeded, id, SentUpdate(own)), Some(id), generated) == Some(shown + [own])
  {
    SeedingSyncs(cs, id, generated);
    var seeded := SeededContacts(cs, Some(id), generated);
    SendKeepsSync(seeded, id, own, LoadedList(seeded, Some(id), generated).value, generated);
  }

  class ChatScreen {
    var contacts: seq<Contact>
    var messages: seq<MessageData>
    var selectedContactId: Option<string>

    /** The page opened at `/chat` (no id) or `/chat/:id`. */
    constructor (routeId: Option<string>)
      ensures contacts == MockContacts && messages == [] && selectedContactId == routeId
    {
      contacts := MockContacts;
      messages := [];
      selectedContactId := routeId;
    }

    /** `contacts.find(c => c.id === selectedContactId)`. */
    function SelectedContact(): (r: Option<Contact>)
      reads this
      ensures r.Some? ==> selectedContactId == Some(r.value.id) && r.value in contacts
      ensures selectedContactId.Some? && (exists i :: 0 <= i < |contacts| && contacts[i].id == selectedContactId.value) ==> r.Some?
    {
      if selectedContactId.Some? then FindContact(contacts, selectedContactId.value) else None
    }

    /** The load effect, as written: show the selected contact's stored
        conversation, or freshly generated filler when it has none. */
    method LoadMessages(idAt: nat -> string, stampAt: nat -> string, readAt: nat -> bool)
      modifies this
      ensures contacts == old(contacts) && selectedContactId == old(selectedContactId)
      ensures messages == LoadedList(contacts, selectedContactId, GenerateMockMessages(idAt, stampAt, readAt)).GetOr(old(messages))
    {
      var loaded := LoadedList(contacts, selectedContactId, GenerateMockMessages(idAt, stampAt, readAt));
      if loaded.Some? {
        messages := loaded.value;
      }
    }

    /** The corrected load effect: as `LoadMessages`, and a contact without
        a stored conversation keeps the filler it is shown. */
    method LoadMessagesSeeded(idAt: nat -> string, stampAt: nat -> string, readAt: nat -> bool)
      modifies this
      ensures selectedContactId == old(selectedContactId)
      ensures var generated := GenerateMockMessages(idAt, stampAt, readAt);
              && contacts == SeededContacts(old(contacts), selectedContactId, generated)
              && messages == LoadedList(contacts, selectedContactId, generated).GetOr(old(messages))
      ensures LoadedList(contacts, selectedContactId, GenerateMockMessages(idAt, stampAt, readAt)).Some? ==>
              InSync(contacts, selectedContactId, messages)
    {
      var generated := GenerateMockMessages(idAt, stampAt, readAt);
      if IsPresent(selectedContactId) && FindContact(contacts, selectedContactId.value).Some? {
        SeedingSyncs(contacts, selectedContactId.value, generated);
      }
      contacts := SeededContacts(contacts, selectedContactId, generated);
      var loaded := LoadedList(contacts, selectedContactId, generated);
      if loaded.Some? {
        messages := loaded.value;
      }
    }

    method HandleContactSelect(contactId: string)
      modifies this
      ensures selectedContactId == Some(contactId)
      ensures contacts == old(contacts) && messages == old(messages)
    {
      selectedContactId := Some(contactId);
    }

    /** The back button clears the selection. */
    method HandleBack()
      modifies this
      ensures selectedContactId == None
      ensures contacts == old(contacts) && messages == old(messages)
    {
      selectedContactId := None;
    }

    /** `handleSendMessage`: with a contact selected, append the user's
        message to the displayed list and to that contact's summary, and
        schedule a reply from the contact as it is now; otherwise do
        nothing. */
    method HandleSendMessage(text: string, id: string, timestamp: string) returns (pending: Option<PendingReply>)
      modifies this
      ensures selectedContactId == old(selectedContactId)
      ensures !IsPresent(old(selectedContactId)) ==>
              contacts == old(contacts) && messages == old(messages) && pending == None
      ensures IsPresent(old(selectedContactId)) ==>
        var target := old(selectedContactId).value;
        var own := OwnMessage(id, text, timestamp);
        && messages == old(messages) + [own]
        && contacts == UpdateMatching(old(contacts), target, SentUpdate(own))
        && pending.Some? && pending.value.contactId == target
        && pending.value.senderName == (if old(SelectedContact()).Some? then Some(old(SelectedContact()).value.name) else None)
        && pending.value.senderAvatar == (if old(SelectedContact()).Some? then old(SelectedContact()).value.avatar else None)
    {
      if !IsPresent(selectedContactId) {
        return None;
      }
      var target := selectedContactId.value;
      var current := SelectedContact();
      var own := OwnMessage(id, text, timestamp);
      messages := messages + [own];
      contacts := UpdateMatching(contacts, target, SentUpdate(own));
      pending := match current
        case Some(c) => Some(PendingReply(target, Some(c.name), c.avatar))
        case None => Some(PendingReply(target, None, None));
    }

    /** The scheduled reply arrives: canned reply `pick` is appended to
        whatever list is displayed now, and the contact chosen at send time
        gets it as its last message with one more unread message. */
    method DeliverReply(p: PendingReply, pick: nat, id: string, timestamp: string)
      requires pick < |ChatReplies|
      modifies this
      ensures selectedContactId == old(selectedContactId)
      ensures messages == old(messages) + [ReplyMessage(p, pick, id, timestamp)]
      ensures contacts == UpdateMatching(old(contacts), p.contactId, ReplyUpdate(ReplyMessage(p, pick, id, timestamp)))
    {
      var reply := ReplyMessage(p, pick, id, timestamp);
      messages := messages + [reply];
      contacts := UpdateMatching(contacts, p.contactId, ReplyUpdate(reply));
    }
  }
}
