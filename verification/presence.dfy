/** The presence line shown under a name in the chat header and on a user
    card: online first, then the last-seen text when there is one, and
    "Offline" otherwise. */
module Presence {
  import opened Base

  const LastSeenPrefix := "Last seen "

  /** `isOnline ? "Online" : lastSeen ? `Last seen ${lastSeen}` : "Offline"`.
      A missing or empty last-seen text falls through to "Offline". */
  function StatusText(isOnline: bool, lastSeen: Option<string>): (r: string)
    ensures r == "Online" <==> isOnline
    ensures r == "Offline" <==> !isOnline && !IsPresent(lastSeen)
    ensures !isOnline && IsPresent(lastSeen) ==> r == LastSeenPrefix + lastSeen.value
  {
    if isOnline then "Online"
    else if IsPresent(lastSeen) then LastSeenPrefix + lastSeen.value
    else "Offline"
  }

  /** The presence line tells the three states apart, and in the last-seen
      state it shows the last-seen text itself: two inputs give the same
      line only when they are in the same state with the same text. */
  lemma StatusTextDistinguishes(on1: bool, seen1: Option<string>, on2: bool, seen2: Option<string>)
    requires StatusText(on1, seen1) == StatusText(on2, seen2)
    ensures on1 == on2
    ensures IsPresent(seen1) || on1 <==> IsPresent(seen2) || on2
    ensures !on1 && IsPresent(seen1) ==> seen1.value == seen2.value
  {
    var r := StatusText(on1, seen1);
    if !on1 && IsPresent(seen1) {
      assert r[..|LastSeenPrefix|] == LastSeenPrefix;
      assert r[|LastSeenPrefix|..] == seen1.value;
      assert !on2 && IsPresent(seen2);
      assert r[|LastSeenPrefix|..] == seen2.value;
    }
  }
}
