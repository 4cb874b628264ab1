/** The avatar fallback text `name.split(' ').map(n => n[0]).join('')
    .toUpperCase()`, shared by the sidebar, the chat header and the contact
    cards. The first character of an empty piece is `undefined`, which
    `join` renders as nothing, so repeated spaces contribute no initial. */
module Initials {
  import opened Text

  /** `words.map(n => n[0]).join('')`. */
  function FirstChars(words: seq<string>): (r: string)
    ensures |r| <= |words|
    decreases |words|
  {
    if words == [] then ""
    else (if words[0] == [] then "" else [words[0][0]]) + FirstChars(words[1..])
  }

  /** Reference definition: the characters of `s` that start a word, that
      is, non-space characters at the start of `s` (when `atStart`) or right
      after a space. */
  function WordStarts(s: string, atStart: bool): (r: string)
    decreases |s|
  {
    if s == [] then ""
    else if s[0] == ' ' then WordStarts(s[1..], true)
    else (if atStart then [s[0]] else "") + WordStarts(s[1..], false)
  }

  lemma {:induction false} FirstCharsOfSplit(s: string)
    ensures FirstChars(SplitOnSpace(s)) == WordStarts(s, true)
    ensures FirstChars(SplitOnSpace(s)[1..]) == WordStarts(s, false)
    decreases |s|
  {
    if s != [] {
      FirstCharsOfSplit(s[1..]);
      var rest := SplitOnSpace(s[1..]);
      if s[0] == ' ' {
        assert SplitOnSpace(s) == [""] + rest;
        assert SplitOnSpace(s)[1..] == rest;
      } else {
        var parts := [[s[0]] + rest[0]] + rest[1..];
        assert SplitOnSpace(s) == parts;
        assert parts[1..] == rest[1..];
        assert FirstChars(parts) == [s[0]] + FirstChars(rest[1..]);
      }
    }
  }

  /** A string has no word start exactly when it is all spaces. */
  lemma {:induction false} NoWordStarts(s: string, atStart: bool)
    ensures WordStarts(s, true) == [] <==> forall i :: 0 <= i < |s| ==> s[i] == ' '
    ensures WordStarts(s, atStart) != [] ==> WordStarts(s, true) != []
    decreases |s|
  {
    if s != [] {
      NoWordStarts(s[1..], atStart);
      NoWordStarts(s[1..], false);
      assert forall i :: 1 <= i < |s| ==> s[i] == s[1..][i - 1];
    }
  }

  /** `getInitials`: the upper-cased first character of every word, in
      order; never longer than the number of space-separated pieces. */
  function GetInitials(name: string): (r: string)
    ensures r == Upper(WordStarts(name, true))
    ensures |r| <= |SplitOnSpace(name)|
  {
    FirstCharsOfSplit(name);
    Upper(FirstChars(SplitOnSpace(name)))
  }

  /** Inside a word, no further initial is taken. */
  lemma {:induction false} SkipWord(w: string, rest: string)
    requires forall i :: 0 <= i < |w| ==> w[i] != ' '
    ensures WordStarts(w + rest, false) == WordStarts(rest, false)
    decreases |w|
  {
    if w != [] {
      assert (w + rest)[0] == w[0] != ' ';
      assert (w + rest)[1..] == w[1..] + rest;
      assert forall i :: 0 <= i < |w[1..]| ==> w[1..][i] == w[i + 1];
      SkipWord(w[1..], rest);
      assert WordStarts(w + rest, false) == "" + WordStarts(w[1..] + rest, false);
    } else {
      assert w + rest == rest;
    }
  }

  lemma StartStep(c: char, rest: string)
    requires c != ' '
    ensures WordStarts([c] + rest, true) == [c] + WordStarts(rest, false)
  {
    assert ([c] + rest)[1..] == rest;
  }

  lemma SpaceStep(rest: string, atStart: bool)
    ensures WordStarts(" " + rest, atStart) == WordStarts(rest, true)
  {
    assert (" " + rest)[1..] == rest;
  }

  /** Two words separated by one space give their two first characters. */
  lemma TwoWordStarts(a: char, w1: string, b: char, w2: string)
    requires a != ' ' && b != ' '
    requires forall i :: 0 <= i < |w1| ==> w1[i] != ' '
    requires forall i :: 0 <= i < |w2| ==> w2[i] != ' '
    ensures WordStarts([a] + (w1 + (" " + ([b] + w2))), true) == [a, b]
  {
    var second := [b] + w2;
    var tail := " " + second;
    StartStep(a, w1 + tail);
    SkipWord(w1, tail);
    SpaceStep(second, false);
    StartStep(b, w2);
    SkipWord(w2, "");
    assert w2 + "" == w2;
  }

  lemma InitialsExample()
    ensures GetInitials("Sarah Johnson") == "SJ"
  {
    assert "Sarah Johnson" == ['S'] + ("arah" + (" " + (['J'] + "ohnson")));
    TwoWordStarts('S', "arah", 'J', "ohnson");
    assert Upper("SJ") == "SJ";
  }
}
