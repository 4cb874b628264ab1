/** The "… is typing" caption under a conversation. */
module TypingIndicator {
  import opened Base
  import opened Text

  const Anonymous := "Someone is typing..."
  const NameSeparator := ", "

  /** `displayText`, or nothing when the indicator is hidden: without names
      an anonymous caption; with names, all of them joined by ", " followed
      by " is typing..." for one name and " are typing..." for several. For
      several names the caption ends right after the last name and the verb,
      so with `CaptionListsNames` nothing else can sit between the names. */
  function Caption(isVisible: bool, userNames: Option<seq<string>>): (r: Option<string>)
    ensures r.None? <==> !isVisible
    ensures isVisible && (userNames.None? || userNames.value == []) ==> r == Some(Anonymous)
    ensures isVisible && userNames.Some? && |userNames.value| == 1 ==>
      r == Some(userNames.value[0] + " is typing...")
    ensures isVisible && userNames.Some? && |userNames.value| >= 2 ==>
      |r.value| >= |" are typing..."| && r.value[|r.value| - |" are typing..."|..] == " are typing..."
    ensures isVisible && userNames.Some? && |userNames.value| >= 2 ==>
      var names := userNames.value;
      |r.value| == Offset(names, NameSeparator, |names| - 1) + |names[|names| - 1]| + |" are typing..."|
  {
    if !isVisible then None
    else if userNames.Some? && |userNames.value| > 0 then
      var verb := if |userNames.value| == 1 then " is typing..." else " are typing...";
      JoinLength(userNames.value, NameSeparator);
      Some(Join(userNames.value, NameSeparator) + verb)
    else Some(Anonymous)
  }

  /** A visible caption names everyone typing, in the order given: name `k`
      starts at `Offset(k)`, the offsets strictly increase, and every name
      but the last is followed by ", ". */
  lemma CaptionListsNames(names: seq<string>, k: nat)
    requires k < |names|
    ensures SliceAt(Caption(true, Some(names)).value, names[k], Offset(names, NameSeparator, k))
    ensures k + 1 < |names| ==>
      SliceAt(Caption(true, Some(names)).value, NameSeparator, Offset(names, NameSeparator, k) + |names[k]|)
    ensures k + 1 < |names| ==> Offset(names, NameSeparator, k) < Offset(names, NameSeparator, k + 1)
  {
    var joined := Join(names, NameSeparator);
    var caption := Caption(true, Some(names)).value;
    JoinPlacesParts(names, NameSeparator, k);
    if k + 1 < |names| {
      JoinPlacesSeparators(names, NameSeparator, k);
      OffsetStep(names, NameSeparator, k);
    }
    var verb := caption[|joined|..];
    assert caption == joined + verb;
    var off := Offset(names, NameSeparator, k);
    assert caption[off..off + |names[k]|] == joined[off..off + |names[k]|];
    if k + 1 < |names| {
      var s := off + |names[k]|;
      assert caption[s..s + |NameSeparator|] == joined[s..s + |NameSeparator|];
    }
  }
}
