/** The reaction strip under a message: at most three reactions until the
    "+N" control expands it for good, and clicks forwarded to the page. */
module Reactions {
  import opened Base

  datatype Reaction = Reaction(emoji: string, count: int, userReacted: Option<bool>)

  /** How many reactions are shown before the strip is expanded. */
  const Collapsed: nat := 3

  /** `showAll ? reactions : reactions.slice(0, 3)`: a prefix of the list,
      the whole list when expanded and at most three entries otherwise. */
  function Visible(rs: seq<Reaction>, showAll: bool): (r: seq<Reaction>)
    ensures |r| <= |rs| && r == rs[..|r|]
    ensures showAll ==> r == rs
    ensures !showAll ==> |r| == if |rs| < Collapsed then |rs| else Collapsed
  {
    if showAll || |rs| <= Collapsed then rs else rs[..Collapsed]
  }

  /** The "+N" control: shown exactly when there are more than three
      reactions and the strip is collapsed, with N the number hidden. */
  function MoreCount(rs: seq<Reaction>, showAll: bool): (r: Option<nat>)
    ensures r.Some? <==> |rs| > Collapsed && !showAll
    ensures r.Some? ==> r.value > 0
  {
    if |rs| > Collapsed && !showAll then Some(|rs| - Collapsed) else None
  }

  /** The visible reactions and the "+N" count together account for every
      reaction, and the hidden ones are exactly the ones past the visible
      prefix. */
  lemma VisiblePlusHidden(rs: seq<Reaction>, showAll: bool)
    ensures |Visible(rs, showAll)| + MoreCount(rs, showAll).GetOr(0) == |rs|
    ensures Visible(rs, showAll) + rs[|Visible(rs, showAll)|..] == rs
  {
  }

  datatype Strip = Strip(visible: seq<Reaction>, more: Option<nat>)

  /** Nothing is rendered for an empty list; otherwise the strip shows the
      visible prefix and the "+N" control. */
  function Render(rs: seq<Reaction>, showAll: bool): (r: Option<Strip>)
    ensures r.None? <==> rs == []
    ensures r.Some? ==> r.value.visible != [] && |r.value.visible| <= |rs| && r.value.visible == rs[..|r.value.visible|]
    ensures r.Some? ==> r.value.visible == Visible(rs, showAll) && r.value.more == MoreCount(rs, showAll)
  {
    if |rs| == 0 then None else Some(Strip(Visible(rs, showAll), MoreCount(rs, showAll)))
  }

  /** The call a reaction button makes: `onReact(messageId, emoji)`. */
  datatype ReactCall = ReactCall(messageId: string, emoji: string)

  class ReactionBar {
    const messageId: string
    const reactions: seq<Reaction>
    var showAll: bool

    constructor (messageId: string, reactions: seq<Reaction>)
      ensures this.messageId == messageId && this.reactions == reactions
      ensures !showAll
    {
      this.messageId := messageId;
      this.reactions := reactions;
      showAll := false;
    }

    /** Clicking "+N": the strip expands and stays expanded. */
    method ShowAll()
      modifies this
      ensures showAll
    {
      showAll := true;
    }

    /** Clicking the `i`-th visible reaction forwards this message's id and
      that reaction's emoji; nothing here changes, counts included. */
    method Click(i: nat) returns (call: ReactCall)
      requires i < |Visible(reactions, showAll)|
      ensures call.messageId == messageId && call.emoji == reactions[i].emoji
    {
      var shown := Visible(reactions, showAll);
      call := ReactCall(messageId, shown[i].emoji);
    }
  }
}
