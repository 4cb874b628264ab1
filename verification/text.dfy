/** String operations the UI code takes from JavaScript's String methods,
    written out over an explicit alphabet: `trim`, ASCII `toLowerCase` and
    `toUpperCase`, `includes`, `split(' ')`, `join`, `padStart` and the
    decimal rendering of a non-negative integer. */
module Text {

  /** The characters `String.prototype.trim` removes: the ECMAScript
      WhiteSpace and LineTerminator code points. */
  const WhitespaceChars: set<char> :=
        {' ', '\t', '\n', '\r', '\U{000B}', '\U{000C}', '\U{00A0}', '\U{FEFF}',
          '\U{1680}', '\U{2000}', '\U{2001}', '\U{2002}', '\U{2003}', '\U{2004}',
          '\U{2005}', '\U{2006}', '\U{2007}', '\U{2008}', '\U{2009}', '\U{200A}',
          '\U{2028}', '\U{2029}', '\U{202F}', '\U{205F}', '\U{3000}'}

  predicate IsWhitespace(c: char) {
    c in WhitespaceChars
  }

  predicate AllWhitespace(s: string) {
    forall i :: 0 <= i < |s| ==> IsWhitespace(s[i])
  }

  /** `t` is the slice of `s` that starts at `a`. */
  predicate SliceAt(s: string, t: string, a: int) {
    0 <= a && a + |t| <= |s| && s[a..a + |t|] == t
  }

  /** The index of the first non-whitespace character at or after `i`
      (or `|s|` when there is none). */
  function LeadingEnd(s: string, i: nat): (k: nat)
    requires i <= |s|
    ensures i <= k <= |s|
    ensures forall j :: i <= j < k ==> IsWhitespace(s[j])
    ensures k < |s| ==> !IsWhitespace(s[k])
    decreases |s| - i
  {
    if i == |s| || !IsWhitespace(s[i]) then i else LeadingEnd(s, i + 1)
  }

  /** The end of `s[lo..e]` once its trailing whitespace is dropped. */
  function TrailingStart(s: string, lo: nat, e: nat): (k: nat)
    requires lo <= e <= |s|
    ensures lo <= k <= e
    ensures forall j :: k <= j < e ==> IsWhitespace(s[j])
    ensures k > lo ==> !IsWhitespace(s[k - 1])
    decreases e
  {
    if e == lo || !IsWhitespace(s[e - 1]) then e else TrailingStart(s, lo, e - 1)
  }

  /** `String.prototype.trim`: the input without its leading and trailing
      whitespace. The result is a slice of the input with only whitespace
      before and after it, it neither starts nor ends with whitespace, and
      it is empty exactly when the input is whitespace only. */
  function Trim(s: string): (r: string)
    ensures exists a :: SliceAt(s, r, a) && AllWhitespace(s[..a]) && AllWhitespace(s[a + |r|..])
    ensures r == [] || (!IsWhitespace(r[0]) && !IsWhitespace(r[|r| - 1]))
    ensures r == [] <==> AllWhitespace(s)
  {
    var a := LeadingEnd(s, 0);
    var b := TrailingStart(s, a, |s|);
    assert SliceAt(s, s[a..b], a) && AllWhitespace(s[..a]) && AllWhitespace(s[b..]);
    s[a..b]
  }

  lemma TrimIdempotent(s: string)
    ensures Trim(Trim(s)) == Trim(s)
  {
    var r := Trim(s);
    assert LeadingEnd(r, 0) == 0;
    assert TrailingStart(r, 0, |r|) == |r|;
  }

  function LowerChar(c: char): char {
    if 'A' <= c <= 'Z' then (c as int + 32) as char else c
  }

  function UpperChar(c: char): char {
    if 'a' <= c <= 'z' then (c as int - 32) as char else c
  }

  /** ASCII `toLowerCase`. */
  function Lower(s: string): (r: string)
    ensures |r| == |s|
    ensures forall i :: 0 <= i < |s| ==> r[i] == LowerChar(s[i])
  {
    seq(|s|, i requires 0 <= i < |s| => LowerChar(s[i]))
  }

  /** ASCII `toUpperCase`. */
  function Upper(s: string): (r: string)
    ensures |r| == |s|
    ensures forall i :: 0 <= i < |s| ==> r[i] == UpperChar(s[i])
  {
    seq(|s|, i requires 0 <= i < |s| => UpperChar(s[i]))
  }

  /** Lower-casing forgets the letter case a string was written in. */
  lemma LowerIgnoresCase(s: string)
    ensures Lower(Upper(s)) == Lower(s)
    ensures Lower(Lower(s)) == Lower(s)
  {
  }

  /** `s.includes(t)`: `t` occurs as a contiguous slice of `s`. */
  function Contains(s: string, t: string): (r: bool)
    ensures r <==> exists a :: SliceAt(s, t, a)
    decreases |s|
  {
    if |t| > |s| then false
    else if s[..|t|] == t then
      assert SliceAt(s, t, 0);
      true
    else
      var r := Contains(s[1..], t);
      assert r ==> exists a :: SliceAt(s, t, a) by {
        if r {
          var a :| SliceAt(s[1..], t, a);
          assert s[1..][a..a + |t|] == s[a + 1..a + 1 + |t|];
          assert SliceAt(s, t, a + 1);
        }
      }
      assert (exists a :: SliceAt(s, t, a)) ==> r by {
        if a :| SliceAt(s, t, a) {
          assert a != 0;
          assert s[1..][a - 1..a - 1 + |t|] == s[a..a + |t|];
          assert SliceAt(s[1..], t, a - 1);
        }
      }
      r
  }

  lemma ContainsEmpty(s: string)
    ensures Contains(s, "")
  {
    assert SliceAt(s, "", 0);
  }

  /** The search test shared by the sidebar and the contacts page:
      `hay.toLowerCase().includes(term.toLowerCase())`. */
  predicate Matches(hay: string, term: string) {
    Contains(Lower(hay), Lower(term))
  }

  /** `s.split(' ')`: the pieces between single spaces, empty pieces
      included, so there is always one more piece than there are spaces. */
  function SplitOnSpace(s: string): (r: seq<string>)
    ensures |r| >= 1
    ensures forall k :: 0 <= k < |r| ==> ' ' !in r[k]
    decreases |s|
  {
    if s == [] then [""]
    else if s[0] == ' ' then [""] + SplitOnSpace(s[1..])
    else
      var rest := SplitOnSpace(s[1..]);
      [[s[0]] + rest[0]] + rest[1..]
  }

  /** `parts.join(sep)`; an empty list joins to the empty string. */
  function Join(parts: seq<string>, sep: string): string
    decreases |parts|
  {
    if |parts| == 0 then ""
    else if |parts| == 1 then parts[0]
    else parts[0] + sep + Join(parts[1..], sep)
  }

  /** Splitting on spaces and joining with a space gives back the input. */
  lemma {:induction false} JoinSplit(s: string)
    ensures Join(SplitOnSpace(s), " ") == s
    decreases |s|
  {
    if s == [] {
    } else if s[0] == ' ' {
      JoinSplit(s[1..]);
      assert s == " " + s[1..];
    } else {
      var rest := SplitOnSpace(s[1..]);
      JoinSplit(s[1..]);
      var parts := [[s[0]] + rest[0]] + rest[1..];
      if |rest| == 1 {
        assert Join(parts, " ") == [s[0]] + rest[0];
      } else {
        assert rest == [rest[0]] + rest[1..];
        assert Join(rest, " ") == rest[0] + " " + Join(rest[1..], " ");
        assert parts[1..] == rest[1..];
        assert Join(parts, " ") == [s[0]] + rest[0] + " " + Join(rest[1..], " ");
      }
      assert s == [s[0]] + s[1..];
    }
  }

  /** Where the `k`-th part starts in `Join(parts, sep)`: after every
      earlier part and its separator. */
  function Offset(parts: seq<string>, sep: string, k: nat): (r: nat)
    requires k <= |parts|
    decreases k
  {
    if k == 0 then 0 else |parts[0]| + |sep| + Offset(parts[1..], sep, k - 1)
  }

  /** The next part starts after this part and one separator. */
  lemma {:induction false} OffsetStep(parts: seq<string>, sep: string, k: nat)
    requires k + 1 <= |parts|
    ensures Offset(parts, sep, k + 1) == Offset(parts, sep, k) + |parts[k]| + |sep|
    decreases k
  {
    if k > 0 {
      OffsetStep(parts[1..], sep, k - 1);
      assert parts[1..][k - 1] == parts[k];
    }
  }

  /** A slice of the right-hand operand is a slice of the concatenation,
      shifted by the length of the left-hand operand. */
  lemma SliceShift(a: string, b: string, t: string, i: int)
    requires SliceAt(b, t, i)
    ensures SliceAt(a + b, t, |a| + i)
  {
    assert (a + b)[|a| + i..|a| + i + |t|] == b[i..i + |t|];
  }

  lemma JoinFirst(parts: seq<string>, sep: string)
    requires |parts| >= 1
    ensures SliceAt(Join(parts, sep), parts[0], 0)
    ensures |parts| >= 2 ==> Join(parts, sep) == (parts[0] + sep) + Join(parts[1..], sep)
    ensures |parts| >= 2 ==> SliceAt(Join(parts, sep), sep, |parts[0]|)
  {
    var j := Join(parts, sep);
    if |parts| >= 2 {
      assert j == (parts[0] + sep) + Join(parts[1..], sep);
      assert j[|parts[0]|..|parts[0]| + |sep|] == sep;
    }
    assert j[0..|parts[0]|] == parts[0];
  }

  /** Joining keeps every part, in order: part `k` sits at `Offset(k)`. */
  lemma {:induction false} JoinPlacesParts(parts: seq<string>, sep: string, k: nat)
    requires k < |parts|
    ensures SliceAt(Join(parts, sep), parts[k], Offset(parts, sep, k))
    decreases k
  {
    JoinFirst(parts, sep);
    if k > 0 {
      var head := parts[0] + sep;
      var off := Offset(parts[1..], sep, k - 1);
      assert Offset(parts, sep, k) == |head| + off;
      JoinPlacesParts(parts[1..], sep, k - 1);
      assert parts[1..][k - 1] == parts[k];
      SliceShift(head, Join(parts[1..], sep), parts[k], off);
    }
  }

  /** The join ends right after its last part. */
  lemma {:induction false} JoinLength(parts: seq<string>, sep: string)
    requires |parts| >= 1
    ensures |Join(parts, sep)| == Offset(parts, sep, |parts| - 1) + |parts[|parts| - 1]|
    decreases |parts|
  {
    if |parts| >= 2 {
      JoinLength(parts[1..], sep);
      assert parts[1..][|parts| - 2] == parts[|parts| - 1];
    }
  }

  /** Every part but the last is followed by the separator. */
  lemma {:induction false} JoinPlacesSeparators(parts: seq<string>, sep: string, k: nat)
    requires k + 1 < |parts|
    ensures SliceAt(Join(parts, sep), sep, Offset(parts, sep, k) + |parts[k]|)
    decreases k
  {
    JoinFirst(parts, sep);
    if k > 0 {
      var head := parts[0] + sep;
      var off := Offset(parts[1..], sep, k - 1);
      assert Offset(parts, sep, k) == |head| + off;
      JoinPlacesSeparators(parts[1..], sep, k - 1);
      assert parts[1..][k - 1] == parts[k];
      SliceShift(head, Join(parts[1..], sep), sep, off + |parts[k]|);
    }
  }

  function DigitChar(d: nat): (c: char)
    requires d < 10
    ensures '0' <= c <= '9'
  {
    (48 + d) as char
  }

  predicate IsDigits(s: string) {
    forall i :: 0 <= i < |s| ==> '0' <= s[i] <= '9'
  }

  /** `n.toString()` for a non-negative integer: its decimal digits, with
      no leading zero except in "0" itself. */
  function NatToDecimal(n: nat): (r: string)
    ensures |r| >= 1 && IsDigits(r)
    ensures r[0] == '0' ==> n == 0
    decreases n
  {
    if n < 10 then [DigitChar(n)] else NatToDecimal(n / 10) + [DigitChar(n % 10)]
  }

  /** The number a string of decimal digits denotes. */
  function DecimalValue(s: string): nat
    requires IsDigits(s)
    decreases |s|
  {
    if s == [] then 0 else DecimalValue(s[..|s| - 1]) * 10 + (s[|s| - 1] as int - 48)
  }

  lemma {:induction false} DecimalRoundTrip(n: nat)
    ensures DecimalValue(NatToDecimal(n)) == n
    decreases n
  {
    if n >= 10 {
      DecimalRoundTrip(n / 10);
      var r := NatToDecimal(n);
      assert r[..|r| - 1] == NatToDecimal(n / 10);
    }
  }

  /** A number below 100 has one decimal digit when it is below 10 and two
      otherwise. */
  lemma DecimalWidth(n: nat)
    requires n < 100
    ensures |NatToDecimal(n)| == if n < 10 then 1 else 2
  {
  }

  /** `s.padStart(width, fill)` with a one-character fill. */
  function PadStart(s: string, width: nat, fill: char): (r: string)
    ensures |r| == if |s| >= width then |s| else width
    ensures r[|r| - |s|..] == s
    ensures forall i :: 0 <= i < |r| - |s| ==> r[i] == fill
  {
    if |s| >= width then s else seq(width - |s|, _ => fill) + s
  }
}
