/** The conversation pane: a placeholder when no contact is open,
    otherwise a header (initials and presence line) over one bubble per
    message, where a group thread marks each change of sender with an
    avatar. */
module ChatWindow {
  import opened Base
  import opened Text
  import opened MockData
  import opened Initials
  import opened Presence
  import opened MessageView

  /** `contact.isGroup && !message.isSent && (index === 0 ||
      messages[index - 1].senderName !== message.senderName)`. */
  predicate ShowAvatar(isGroup: Option<bool>, msgs: seq<MessageData>, i: nat)
    requires i < |msgs|
  {
    IsSet(isGroup) && !msgs[i].isSent && (i == 0 || msgs[i - 1].senderName != msgs[i].senderName)
  }

  /** A run of consecutive messages that share one sender name shows at
      most one avatar, at its start. */
  lemma {:induction false} OneAvatarPerRun(isGroup: Option<bool>, msgs: seq<MessageData>, lo: nat, hi: nat)
    requires lo < hi <= |msgs|
    requires forall k :: lo <= k < hi ==> msgs[k].senderName == msgs[lo].senderName
    ensures forall k :: lo < k < hi ==> !ShowAvatar(isGroup, msgs, k)
  {
    forall k | lo < k < hi
      ensures !ShowAvatar(isGroup, msgs, k)
    {
      assert msgs[k - 1].senderName == msgs[lo].senderName == msgs[k].senderName;
    }
  }

  /** One bubble: the message and whether it shows the sender's avatar. */
  datatype Bubble = Bubble(message: MessageData, showAvatar: bool)

  datatype Pane =
    | Placeholder
    | Thread(initials: string, name: string, status: string, bubbles: seq<Bubble>)

  /** The pane for an optional contact and its messages. Without a contact
      only the placeholder is shown; with one, the header and exactly one
      bubble per message, in message order. Outside a group, and on the
      user's own messages, no bubble shows an avatar; in a group the first
      received message always does, and a later received message does
      exactly when its predecessor has a different sender name. */
  function Render(contact: Option<Contact>, msgs: seq<MessageData>): (r: Pane)
    ensures r.Placeholder? <==> contact.None?
    ensures r.Thread? ==> r.name == contact.value.name
    ensures r.Thread? ==> r.status == StatusText(contact.value.isOnline, contact.value.lastSeen)
    ensures r.Thread? ==> r.initials == Upper(WordStarts(contact.value.name, true))
    ensures r.Thread? ==> |r.bubbles| == |msgs| && forall i :: 0 <= i < |msgs| ==> r.bubbles[i].message == msgs[i]
    ensures r.Thread? ==> forall i :: 0 <= i < |msgs| && (msgs[i].isSent || !IsSet(contact.value.isGroup)) ==> !r.bubbles[i].showAvatar
    ensures r.Thread? && IsSet(contact.value.isGroup) && |msgs| > 0 && !msgs[0].isSent ==> r.bubbles[0].showAvatar
    ensures r.Thread? && IsSet(contact.value.isGroup) ==>
      forall i :: 0 < i < |msgs| && !msgs[i].isSent ==>
        (r.bubbles[i].showAvatar <==> msgs[i - 1].senderName != msgs[i].senderName)
  {
    match contact
    case None => Placeholder
    case Some(c) =>
      Thread(GetInitials(c.name), c.name, StatusText(c.isOnline, c.lastSeen),
             seq(|msgs|, i requires 0 <= i < |msgs| => Bubble(msgs[i], ShowAvatar(c.isGroup, msgs, i))))
  }

  /** Outside a group no bubble shows an avatar or a sender name. */
  lemma DirectChatShowsNoSender(c: Contact, msgs: seq<MessageData>)
    requires !IsSet(c.isGroup)
    ensures forall i :: 0 <= i < |msgs| ==>
      !ShowsAvatar(msgs[i], Render(Some(c), msgs).bubbles[i].showAvatar) &&
      !ShowsSenderName(msgs[i], Render(Some(c), msgs).bubbles[i].showAvatar)
  {
  }

  /** In the stored team thread every received message changes sender, so
      each one shows its sender's avatar. */
  lemma TeamThreadAvatars()
    ensures var p := Render(Some(MockContacts[1]), TeamThread);
      && |p.bubbles| == 4
      && p.bubbles[0].showAvatar && !p.bubbles[1].showAvatar
      && p.bubbles[2].showAvatar && p.bubbles[3].showAvatar
  {
    var team := MockContacts[1];
    assert IsSet(team.isGroup);
    var msgs := TeamThread;
    assert !msgs[0].isSent && msgs[1].isSent && !msgs[2].isSent && !msgs[3].isSent;
    assert msgs[1].senderName.None? && msgs[2].senderName.Some?;
    assert msgs[2].senderName.value[0] == 'B' && msgs[3].senderName.value[0] == 'A';
  }
}
