/** The voice-message bubble: its m:ss clock, which time it shows, and the
    play/pause button's dispatch to optional callbacks. */
module VoiceMessage {
  import opened Base
  import opened Text

  /** A leading zero does not change the value of a digit. */
  lemma LeadingZero(d: string)
    requires |d| == 1 && IsDigits(d)
    ensures IsDigits("0" + d) && DecimalValue("0" + d) == DecimalValue(d)
  {
    var z := "0" + d;
    assert z[..|z| - 1] == "0";
    assert "0"[..0] == "";
    assert d[..0] == "";
  }

  /** The seconds field of `formatTime`: `secs.toString().padStart(2, '0')`. */
  function SecondsField(secs: nat): (r: string)
    requires secs < 60
    ensures |r| == 2 && IsDigits(r) && DecimalValue(r) == secs
  {
    DecimalWidth(secs);
    DecimalRoundTrip(secs);
    var digits := NatToDecimal(secs);
    if |digits| == 1 then
      LeadingZero(digits);
      assert PadStart(digits, 2, '0') == "0" + digits;
      PadStart(digits, 2, '0')
    else
      PadStart(digits, 2, '0')
  }

  /** Reads an `m:ss` clock back: the minutes before the colon, two digits
      of seconds after it. */
  function ParseTime(t: string): (r: Option<nat>)
    ensures r.Some? ==> |t| >= 4 && t[|t| - 3] == ':'
  {
    if |t| >= 4 && t[|t| - 3] == ':' && IsDigits(t[..|t| - 3]) && IsDigits(t[|t| - 2..]) then
      Some(DecimalValue(t[..|t| - 3]) * 60 + DecimalValue(t[|t| - 2..]))
    else None
  }

  /** A minutes field, a colon and a two-digit seconds field read back as
      the number of seconds they denote. */
  lemma ParseClock(mins: string, secs: string)
    requires |mins| >= 1 && IsDigits(mins) && |secs| == 2 && IsDigits(secs)
    ensures var t := mins + ":" + secs;
      && t[..|t| - 3] == mins && t[|t| - 3] == ':' && t[|t| - 2..] == secs
      && ParseTime(t) == Some(DecimalValue(mins) * 60 + DecimalValue(secs))
  {
    var t := mins + ":" + secs;
    assert t[..|t| - 3] == mins;
    assert t[|t| - 2..] == secs;
  }

  /** `formatTime` on a whole, non-negative number of seconds: the minutes,
      a colon, and exactly two digits of seconds denoting a value below
      60, so that reading the clock back gives the input. */
  function FormatTime(seconds: nat): (r: string)
    ensures |r| >= 4 && r[|r| - 3] == ':'
    ensures IsDigits(r[|r| - 2..]) && DecimalValue(r[|r| - 2..]) < 60
    ensures r[..|r| - 3] == NatToDecimal(seconds / 60)
    ensures ParseTime(r) == Some(seconds)
  {
    var mins := NatToDecimal(seconds / 60);
    var secs := SecondsField(seconds % 60);
    ParseClock(mins, secs);
    DecimalRoundTrip(seconds / 60);
    mins + ":" + secs
  }

  lemma FormatTimeExamples()
    ensures FormatTime(0) == "0:00"
    ensures FormatTime(65) == "1:05"
  {
    assert NatToDecimal(0) == "0" && NatToDecimal(5) == "5" && NatToDecimal(1) == "1";
    assert SecondsField(0) == "00";
    assert SecondsField(5) == "05";
    assert FormatTime(0) == "0" + ":" + "00";
    assert FormatTime(65) == "1" + ":" + "05";
  }

  /** Distinct durations never show the same clock. */
  lemma FormatTimeInjective(a: nat, b: nat)
    requires FormatTime(a) == FormatTime(b)
    ensures a == b
  {
  }

  /** `currentTime` starts at zero and nothing in the bubble changes it. */
  const CurrentTime: nat := 0

  /** `formatTime(isPlaying ? currentTime : duration)`. */
  function ShownTime(isPlaying: bool, duration: nat): (r: string)
    ensures !isPlaying ==> ParseTime(r) == Some(duration)
    ensures isPlaying ==> ParseTime(r) == Some(CurrentTime)
    ensures r == FormatTime(if isPlaying then CurrentTime else duration)
  {
    FormatTime(if isPlaying then CurrentTime else duration)
  }

  /** While playing the clock therefore always reads "0:00". */
  lemma PlayingShowsZero(duration: nat)
    ensures ShownTime(true, duration) == "0:00"
  {
    FormatTimeExamples();
  }

  /** Which callback the button invokes. */
  datatype Call = CallPlay | CallPause | NoCall

  /** `handleTogglePlay`: `onPause?.()` while playing, `onPlay?.()`
      otherwise; an absent callback makes the click do nothing. */
  function TogglePlay(isPlaying: bool, hasOnPlay: bool, hasOnPause: bool): (r: Call)
    ensures r == CallPause ==> isPlaying
    ensures r == CallPlay ==> !isPlaying
    ensures isPlaying && hasOnPause ==> r == CallPause
    ensures !isPlaying && hasOnPlay ==> r == CallPlay
    ensures r == NoCall <==> (if isPlaying then !hasOnPause else !hasOnPlay)
  {
    if isPlaying then (if hasOnPause then CallPause else NoCall)
    else if hasOnPlay then CallPlay else NoCall
  }
}
