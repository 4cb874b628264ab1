/** The home page's conversation store: one message list per contact id,
    the selected contact, sending (an optimistic append plus a scheduled
    canned reply) and the selection handlers. The reply timer is modelled
    by `Send` returning the reply it schedules and `DeliverReply` applying
    it; the delay itself is not modelled. */
module IndexPage {
  import opened Base
  import opened MockData

  /** The home page's canned replies. */
  const IndexReplies: seq<string> :=
    [ "Thanks for your message!",
      "Got it, I'll get back to you soon.",
      "That sounds great!",
      "Let me think about that.",
      "Interesting point!",
      "I completely agree with you.",
      "Can you tell me more about that?",
      "That's a brilliant idea!" ]

  /** A reply scheduled by a send. Its target and sender name are fixed
      when the message is sent, whatever is selected when it arrives. */
  datatype PendingReply = PendingReply(contactId: string, senderName: Option<string>)

  /** `prev[id] || []`: a missing conversation reads as empty. */
  function Conversation(store: map<string, seq<MessageData>>, id: string): (r: seq<MessageData>)
    ensures id !in store ==> r == []
    ensures id in store ==> r == store[id]
  {
    if id in store then store[id] else []
  }

  /** `{...prev, [id]: [...(prev[id] || []), msg]}`: the conversation of
      `id` gains `msg` at its end and every other conversation stays. */
  function AppendTo(store: map<string, seq<MessageData>>, id: string, msg: MessageData): (r: map<string, seq<MessageData>>)
    ensures r.Keys == store.Keys + {id}
    ensures Conversation(r, id) == Conversation(store, id) + [msg]
    ensures forall k :: k != id ==> Conversation(r, k) == Conversation(store, k)
    ensures forall k :: k in store && k != id ==> r[k] == store[k]
  {
    store[id := Conversation(store, id) + [msg]]
  }

  /** The message a send appends: the user's own, delivered, unread. */
  function OwnMessage(id: string, text: string, timestamp: string): (m: MessageData)
    ensures m.text == text && m.isSent
    ensures m.isDelivered == Some(true) && m.isRead == Some(false)
  {
    MessageData(id, text, timestamp, true, Some(true), Some(false), None, None)
  }

  /** The canned reply number `pick`, attributed to the sender captured
      at send time. */
  function ReplyMessage(id: string, pick: nat, timestamp: string, senderName: Option<string>): (m: MessageData)
    requires pick < |IndexReplies|
    ensures m.text in IndexReplies && !m.isSent && m.senderName == senderName
  {
    MessageData(id, IndexReplies[pick], timestamp, false, None, None, senderName, None)
  }

  /** A send followed by its reply, with nothing in between, grows the
      conversation by exactly the two messages in that order. */
  lemma {:induction false} SendThenReply(store: map<string, seq<MessageData>>, id: string, own: MessageData, reply: MessageData)
    ensures Conversation(AppendTo(AppendTo(store, id, own), id, reply), id) == Conversation(store, id) + [own, reply]
  {
    var once := AppendTo(store, id, own);
    assert Conversation(once, id) == Conversation(store, id) + [own];
    assert Conversation(AppendTo(once, id, reply), id) == Conversation(once, id) + [reply];
  }

  class HomePage {
    var selectedContactId: Option<string>
    var messages: map<string, seq<MessageData>>

    constructor ()
      ensures selectedContactId == None && messages == MockMessages
    {
      selectedContactId := None;
      messages := MockMessages;
    }

    /** `currentMessages`: the selected contact's conversation, or nothing
        when no contact is selected. */
    function CurrentMessages(): (r: seq<MessageData>)
      reads this
      ensures IsPresent(selectedContactId) ==> r == Conversation(messages, selectedContactId.value)
      ensures !IsPresent(selectedContactId) ==> r == []
    {
      if IsPresent(selectedContactId) then Conversation(messages, selectedContactId.value) else []
    }

    /** `selectedContact`: the mock contact whose id is selected. */
    function SelectedContact(): (r: Option<Contact>)
      reads this
      ensures r.Some? ==> IsPresent(selectedContactId) && r.value.id == selectedContactId.value && r.value in MockContacts
      ensures IsPresent(selectedContactId) && selectedContactId.value in MockMessages ==> r.Some?
    {
      if IsPresent(selectedContactId) then
        MockConversationsBelongToContacts();
        FindContact(MockContacts, selectedContactId.value)
      else None
    }

    method HandleContactSelect(contactId: string)
      modifies this
      ensures selectedContactId == Some(contactId) && messages == old(messages)
    {
      selectedContactId := Some(contactId);
    }

    method HandleBackToContacts()
      modifies this
      ensures selectedContactId == None && messages == old(messages)
    {
      selectedContactId := None;
    }

    /** `handleSendMessage`: with a contact selected, append the user's
        message to that contact's conversation and schedule a reply to the
        same contact; with none selected, do nothing. */
    method HandleSendMessage(text: string, id: string, timestamp: string) returns (pending: Option<PendingReply>)
      modifies this
      ensures selectedContactId == old(selectedContactId)
      ensures !IsPresent(old(selectedContactId)) ==> messages == old(messages) && pending == None
      ensures IsPresent(old(selectedContactId)) ==>
        var target := old(selectedContactId).value;
        && messages == AppendTo(old(messages), target, OwnMessage(id, text, timestamp))
        && pending == Some(PendingReply(target, SenderName(target)))
    {
      if !IsPresent(selectedContactId) {
        return None;
      }
      var target := selectedContactId.value;
      messages := AppendTo(messages, target, OwnMessage(id, text, timestamp));
      pending := Some(PendingReply(target, SenderName(target)));
    }

    /** The scheduled reply arrives: canned reply `pick` is appended to the
        conversation chosen at send time, whatever is selected now. */
    method DeliverReply(p: PendingReply, pick: nat, id: string, timestamp: string)
      requires pick < |IndexReplies|
      modifies this
      ensures selectedContactId == old(selectedContactId)
      ensures messages == AppendTo(old(messages), p.contactId, ReplyMessage(id, pick, timestamp, p.senderName))
    {
      messages := AppendTo(messages, p.contactId, ReplyMessage(id, pick, timestamp, p.senderName));
    }
  }

  /** `mockContacts.find(c => c.id === id)?.name`. */
  function SenderName(contactId: string): (r: Option<string>)
    ensures r.Some? <==> FindContact(MockContacts, contactId).Some?
    ensures r.Some? ==> exists c :: c in MockContacts && c.id == contactId && c.name == r.value
  {
    match FindContact(MockContacts, contactId)
    case Some(c) => Some(c.name)
    case None => None
  }
}
