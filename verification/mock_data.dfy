/** The in-memory dataset every page starts from: the contact list, the
    stored conversations keyed by contact id, and the generator of filler
    conversations. Clock readings, random ids and random read flags are
    parameters. */
module MockData {
  import opened Base
  import Seqs

  datatype MessageData = MessageData(
    id: string,
    text: string,
    timestamp: string,
    isSent: bool,
    isDelivered: Option<bool>,
    isRead: Option<bool>,
    senderName: Option<string>,
    senderAvatar: Option<string>)

  /** A conversation summary. `messages` is the extension the chat page
      adds to keep a contact's own copy of its conversation; the mock
      contacts carry none. */
  datatype Contact = Contact(
    id: string,
    name: string,
    avatar: Option<string>,
    lastMessage: string,
    timestamp: string,
    unreadCount: int,
    isOnline: bool,
    isGroup: Option<bool>,
    lastSeen: Option<string>,
    messages: Option<seq<MessageData>>)

  const MockContacts: seq<Contact> :=
    [ Contact("1", "Sarah Johnson", None, "Hey! How's the project going?", "2m", 2, true, None, Some("2 minutes ago"), None),
      Contact("2", "Team Alpha", None, "Meeting tomorrow at 10 AM", "1h", 0, false, Some(true), Some("1 hour ago"), None),
      Contact("3", "Mike Chen", None, "Thanks for the help with the code review!", "3h", 0, true, None, Some("Online"), None),
      Contact("4", "Design Team", None, "New mockups are ready for review", "5h", 5, false, Some(true), Some("5 hours ago"), None),
      Contact("5", "Emma Wilson", None, "Can you send me the files?", "1d", 0, false, None, Some("yesterday"), None),
      Contact("6", "Dev Team", None, "Sprint planning session scheduled", "1d", 1, false, Some(true), Some("1 day ago"), None) ]

  function SentMessage(id: string, text: string, timestamp: string, isRead: bool): MessageData {
    MessageData(id, text, timestamp, true, Some(true), Some(isRead), None, None)
  }

  function ReceivedMessage(id: string, text: string, timestamp: string, sender: string): MessageData {
    MessageData(id, text, timestamp, false, None, None, Some(sender), None)
  }

  /** The stored conversations, keyed by contact id. */
  const MockMessages: map<string, seq<MessageData>> :=
    map k | k in StoredContactIds :: StoredThread(k)

  /** The contacts with a stored conversation. */
  const StoredContactIds: set<string> :=
    {"1", "2", "3"}

  function StoredThread(k: string): seq<MessageData> {
    if k == "1" then SarahThread else if k == "2" then TeamThread else MikeThread
  }

  const SarahThread: seq<MessageData> :=
    [ SentMessage("m1", "Hi Sarah! The project is going well. We're making good progress on the frontend.", "2:30 PM", true),
      ReceivedMessage("m2", "That's great to hear! I've been working on the API endpoints.", "2:32 PM", "Sarah Johnson"),
      SentMessage("m3", "Perfect! How's the authentication system coming along?", "2:35 PM", false),
      ReceivedMessage("m4", "Hey! How's the project going?", "3:45 PM", "Sarah Johnson") ]

  const TeamThread: seq<MessageData> :=
    [ ReceivedMessage("m5", "Don't forget about our team meeting tomorrow at 10 AM in the conference room.", "Yesterday", "Alice Cooper"),
      SentMessage("m6", "I'll be there! Should I prepare anything specific?", "Yesterday", true),
      ReceivedMessage("m7", "Just bring your laptop and we'll go over the sprint goals.", "Yesterday", "Bob Smith"),
      ReceivedMessage("m8", "Meeting tomorrow at 10 AM", "1h ago", "Alice Cooper") ]

  const MikeThread: seq<MessageData> :=
    [ SentMessage("m9", "Hey Mike! I finished reviewing your pull request.", "4:00 PM", true),
      ReceivedMessage("m10", "Thanks for the help with the code review!", "4:05 PM", "Mike Chen") ]

  /** `Array.find` by id: the first contact with the given id, if any. */
  function FindContact(cs: seq<Contact>, id: string): (r: Option<Contact>)
    ensures r.Some? <==> exists i :: 0 <= i < |cs| && cs[i].id == id
    ensures r.Some? ==> exists i :: 0 <= i < |cs| && cs[i] == r.value && r.value.id == id &&
                                    forall j :: 0 <= j < i ==> cs[j].id != id
    decreases |cs|
  {
    if cs == [] then None
    else if cs[0].id == id then Some(cs[0])
    else
      var r := FindContact(cs[1..], id);
      assert forall i :: 1 <= i < |cs| ==> cs[i] == cs[1..][i - 1];
      assert r.Some? ==> exists i :: 0 <= i < |cs| && cs[i] == r.value && r.value.id == id &&
                                     forall j :: 0 <= j < i ==> cs[j].id != id by {
        if r.Some? {
          var i :| 0 <= i < |cs| - 1 && cs[1..][i] == r.value && r.value.id == id &&
                   forall j :: 0 <= j < i ==> cs[1..][j].id != id;
          assert cs[i + 1] == r.value;
          assert forall j :: 1 <= j < i + 1 ==> cs[j].id == cs[1..][j - 1].id;
        }
      }
      r
  }

  predicate IdsDistinct(cs: seq<Contact>) {
    forall i, j :: 0 <= i < j < |cs| ==> cs[i].id != cs[j].id
  }

  lemma MockContactIdsDistinct()
    ensures IdsDistinct(MockContacts)
    ensures forall i :: 0 <= i < |MockContacts| ==> MockContacts[i].unreadCount >= 0
  {
  }

  /** Every stored conversation belongs to a listed contact. */
  lemma MockConversationsBelongToContacts()
    ensures forall k :: k in MockMessages ==> FindContact(MockContacts, k).Some?
  {
    forall k | k in MockMessages
      ensures FindContact(MockContacts, k).Some?
    {
      assert k in StoredContactIds;
      StoredContactsListed(k);
    }
  }

  lemma StoredContactsListed(k: string)
    requires k in StoredContactIds
    ensures FindContact(MockContacts, k).Some?
  {
    assert MockContacts[0].id == "1" && MockContacts[1].id == "2" && MockContacts[2].id == "3";
  }

  /** The ids of a list of messages, in order. */
  function Ids(ms: seq<MessageData>): (r: seq<string>)
    ensures |r| == |ms| && forall i :: 0 <= i < |ms| ==> r[i] == ms[i].id
  {
    seq(|ms|, i requires 0 <= i < |ms| => ms[i].id)
  }

  /** The stored message ids, in conversation order. */
  const StoredIds: seq<string> :=
    ["m1", "m2", "m3", "m4", "m5", "m6", "m7", "m8", "m9", "m10"]

  /** The ten stored ids are pairwise distinct. */
  lemma StoredIdsDistinct()
    ensures forall i, j :: 0 <= i < j < |StoredIds| ==> StoredIds[i] != StoredIds[j]
  {
  }

  lemma {:induction false} IdsConcat(a: seq<MessageData>, b: seq<MessageData>)
    ensures Ids(a + b) == Ids(a) + Ids(b)
  {
  }

  lemma SarahIds()
    ensures Ids(SarahThread) == StoredIds[..4]
  {
  }

  lemma TeamIds()
    ensures Ids(TeamThread) == StoredIds[4..8]
  {
  }

  lemma MikeIds()
    ensures Ids(MikeThread) == StoredIds[8..]
  {
  }

  /** Conversations holding the ids m1 to m4, m5 to m8 and m9 to m10 never
      share an id, within one conversation or across two. */
  lemma IdsAcrossConversations(a: seq<MessageData>, b: seq<MessageData>, c: seq<MessageData>)
    requires Ids(a) == StoredIds[..4] && Ids(b) == StoredIds[4..8] && Ids(c) == StoredIds[8..]
    ensures Ids(a + b + c) == StoredIds
    ensures forall i, j :: 0 <= i < j < |a + b + c| ==> (a + b + c)[i].id != (a + b + c)[j].id
  {
    IdsConcat(a, b);
    IdsConcat(a + b, c);
    assert StoredIds == StoredIds[..4] + StoredIds[4..8] + StoredIds[8..];
    StoredIdsDistinct();
    var all := a + b + c;
    forall i, j | 0 <= i < j < |all|
      ensures all[i].id != all[j].id
    {
      assert Ids(all)[i] == all[i].id && Ids(all)[j] == all[j].id;
    }
  }

  /** No two stored messages, in the same conversation or in different
      ones, share an id. */
  lemma MockMessageIdsDistinct()
    ensures var all := SarahThread + TeamThread + MikeThread;
      forall i, j :: 0 <= i < j < |all| ==> all[i].id != all[j].id
  {
    SarahIds();
    TeamIds();
    MikeIds();
    IdsAcrossConversations(SarahThread, TeamThread, MikeThread);
  }

  const MockTexts: seq<string> :=
    [ "Hey there! How are you doing?",
      "I'm working on a new project, would love to get your thoughts",
      "Did you see the latest news about the tech conference?",
      "Let's catch up soon over coffee \U{2615}",
      "Thanks for your help yesterday!",
      "The weather is beautiful today \U{1F31E}",
      "How was your weekend?",
      "I found this interesting article you might like" ]

  /** `generateMockMessages`: one message per filler text, in text order.
      Every third message, starting with the first, is sent by the user;
      the others are attributed to "Contact". */
  function GenerateMockMessages(idAt: nat -> string, stampAt: nat -> string, readAt: nat -> bool): (r: seq<MessageData>)
    ensures |r| == |MockTexts| == 8
    ensures forall i :: 0 <= i < |r| ==> r[i].text == MockTexts[i] && r[i].id == idAt(i)
    ensures forall i :: 0 <= i < |r| ==> (r[i].isSent <==> i % 3 == 0)
    ensures forall i :: 0 <= i < |r| ==> r[i].senderName == if r[i].isSent then None else Some("Contact")
    ensures forall i :: 0 <= i < |r| ==> r[i].isDelivered == Some(true)
  {
    var texts := MockTexts;
    seq(|texts|, i requires 0 <= i < |texts| =>
      MessageData(idAt(i), texts[i], stampAt(i), i % 3 == 0, Some(true), Some(readAt(i)),
                  if i % 3 != 0 then Some("Contact") else None, None))
  }

  /** Three of the eight generated messages are the user's own. */
  lemma GeneratedSentCount(idAt: nat -> string, stampAt: nat -> string, readAt: nat -> bool)
    ensures |Seqs.Filter(GenerateMockMessages(idAt, stampAt, readAt), (m: MessageData) => m.isSent)| == 3
  {
    var r := GenerateMockMessages(idAt, stampAt, readAt);
    var p := (m: MessageData) => m.isSent;
    assert r == [r[0], r[1], r[2], r[3], r[4], r[5], r[6], r[7]];
    assert r[1..] == [r[1], r[2], r[3], r[4], r[5], r[6], r[7]];
    assert r[2..] == [r[2], r[3], r[4], r[5], r[6], r[7]];
    assert r[3..] == [r[3], r[4], r[5], r[6], r[7]];
    assert r[4..] == [r[4], r[5], r[6], r[7]];
    assert r[5..] == [r[5], r[6], r[7]];
    assert r[6..] == [r[6], r[7]];
    assert r[7..] == [r[7]];
    assert |Seqs.Filter(r[7..], p)| == 0;
    assert |Seqs.Filter(r[6..], p)| == 1;
    assert |Seqs.Filter(r[4..], p)| == 1;
    assert |Seqs.Filter(r[3..], p)| == 2;
    assert |Seqs.Filter(r[1..], p)| == 2;
  }
}
