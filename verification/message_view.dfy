/** One message bubble: the sender's avatar and name in a group thread,
    and the delivery receipt under the user's own messages. */
module MessageView {
  import opened Base
  import opened Text
  import opened MockData
  import opened Initials

  /** The bubble's avatar text, `name?.split(' ')…toUpperCase() || '?'`:
      the initials, or "?" when the name has no word at all. */
  function AvatarText(name: string): (r: string)
    ensures r != ""
    ensures (forall i :: 0 <= i < |name| ==> name[i] == ' ') ==> r == "?"
    ensures !(forall i :: 0 <= i < |name| ==> name[i] == ' ') ==> r == Upper(WordStarts(name, true))
  {
    NoWordStarts(name, true);
    var initials := GetInitials(name);
    if initials != "" then initials else "?"
  }

  /** The bubble passes `message.senderName || ''`. */
  function SenderAvatarText(m: MessageData): (r: string)
    ensures !IsPresent(m.senderName) ==> r == "?"
    ensures IsPresent(m.senderName) ==> r == AvatarText(m.senderName.value)
  {
    AvatarText(if IsPresent(m.senderName) then m.senderName.value else "")
  }

  lemma AvatarTextExamples()
    ensures AvatarText("") == "?"
    ensures AvatarText("Sarah Johnson") == "SJ"
  {
    InitialsExample();
    var name := "Sarah Johnson";
    assert name[0] != ' ';
  }

  /** The marker under a message. */
  datatype Receipt = NoReceipt | ReadMarker | DeliveredMarker | SingleCheck

  /** Only the user's own messages carry a marker; a read message shows the
      read marker whatever its delivery flag, a delivered but unread one
      the delivered marker, and any other one a single check. */
  function ReceiptFor(m: MessageData): (r: Receipt)
    ensures r == NoReceipt <==> !m.isSent
    ensures r == ReadMarker <==> m.isSent && IsSet(m.isRead)
    ensures r == DeliveredMarker <==> m.isSent && !IsSet(m.isRead) && IsSet(m.isDelivered)
    ensures r == SingleCheck <==> m.isSent && !IsSet(m.isRead) && !IsSet(m.isDelivered)
  {
    if !m.isSent then NoReceipt
    else if IsSet(m.isRead) then ReadMarker
    else if IsSet(m.isDelivered) then DeliveredMarker
    else SingleCheck
  }

  /** The stored conversation with Sarah shows, in order: a read marker on
      the first message the user sent, nothing on her reply, a delivered
      marker on the user's unread second message, nothing on her last. */
  lemma StoredReceipts()
    ensures |SarahThread| == 4
    ensures ReceiptFor(SarahThread[0]) == ReadMarker
    ensures ReceiptFor(SarahThread[1]) == NoReceipt
    ensures ReceiptFor(SarahThread[2]) == DeliveredMarker
    ensures ReceiptFor(SarahThread[3]) == NoReceipt
  {
    var msgs := SarahThread;
    assert msgs[0].isRead == Some(true) && msgs[2].isRead == Some(false) && msgs[2].isDelivered == Some(true);
  }

  /** `showAvatar && !message.isSent`. */
  predicate ShowsAvatar(m: MessageData, showAvatar: bool) {
    showAvatar && !m.isSent
  }

  /** `!message.isSent && showAvatar && message.senderName`. */
  predicate ShowsSenderName(m: MessageData, showAvatar: bool) {
    !m.isSent && showAvatar && IsPresent(m.senderName)
  }

  /** A sender name is only ever shown beside an avatar, and neither is
      shown on the user's own messages. */
  lemma SenderNameNeedsAvatar(m: MessageData, showAvatar: bool)
    ensures ShowsSenderName(m, showAvatar) ==> ShowsAvatar(m, showAvatar)
    ensures m.isSent ==> !ShowsAvatar(m, showAvatar) && !ShowsSenderName(m, showAvatar)
  {
  }
}
