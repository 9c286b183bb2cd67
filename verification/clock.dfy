/** The `m:ss` elapsed-time label shared by the lesson and debate screens. */
module Clock {
  import opened Text

  /** `formatTime`: whole minutes, a colon, and the seconds padded to two digits. */
  function FormatTime(seconds: nat): (r: string)
    ensures |r| >= 4 && r[|r| - 3] == ':' && AllDigits(r[|r| - 2..])
  {
    NatToString(seconds / 60) + ":" + PadTwo(seconds % 60)
  }

  /**
   * The label reads back to the time it shows: the digits before the colon are
   * the minutes, the two digits after it the seconds, and minutes * 60 + seconds
   * is the input.
   */
  lemma FormatTimeRoundTrip(seconds: nat)
    ensures var r := FormatTime(seconds);
            var m := Before(r, ':');
            var s := After(r, ':');
            AllDigits(m) && AllDigits(s) && |s| == 2
            && DigitsValue(m) * 60 + DigitsValue(s) == seconds
  {
    var r := FormatTime(seconds);
    var mins := NatToString(seconds / 60);
    var secs := PadTwo(seconds % 60);
    assert r == mins + [':'] + secs;
    assert ':' !in mins;
    assert mins + [':'] <= r;
    BeforeOfPrefix(r, mins, ':');
    assert After(r, ':') == secs;
    NatToStringRoundTrip(seconds / 60);
    PadTwoRoundTrip(seconds % 60);
  }
}
