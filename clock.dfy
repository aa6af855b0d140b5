/** The elapsed-time arithmetic of the timer display and of the final time:
    whole seconds split into hours, minutes and seconds, each written with at
    least two digits. The clock itself is not modelled; the elapsed seconds
    are an input. */
module Clock {
  import opened Text

  datatype Duration = Duration(hours: nat, minutes: nat, seconds: nat)

  /** Math.floor(e / 3600), Math.floor((e % 3600) / 60) and e % 60. */
  function Decompose(elapsed: nat): (d: Duration)
    ensures d.hours * 3600 + d.minutes * 60 + d.seconds == elapsed
    ensures d.minutes < 60 && d.seconds < 60
  {
    var h, r := elapsed / 3600, elapsed % 3600;
    var m, s := r / 60, r % 60;
    assert elapsed == h * 3600 + r && r == m * 60 + s;
    assert elapsed == (h * 60 + m) * 60 + s;
    assert elapsed % 60 == s;
    Duration(h, m, elapsed % 60)
  }

  /** "HH:MM:SS " — note the trailing blank the script writes. The hours take
      two digits or more; the last seven characters are ":MM:SS ". */
  function ClockText(elapsed: nat): (t: string)
    ensures |t| >= 9
    ensures t[|t| - 7] == ':' && t[|t| - 4] == ':' && t[|t| - 1] == ' '
  {
    var d := Decompose(elapsed);
    var h, m, s := TwoDigits(d.hours), TwoDigits(d.minutes), TwoDigits(d.seconds);
    var t := h + ":" + m + ":" + s + " ";
    assert |m| == 2 && |s| == 2;
    assert t[|t| - 7] == ':' && t[|t| - 4] == ':';
    t
  }

  /** The clock text can be read back: the last seven characters are
      ":MM:SS ", every field is decimal, and the fields give back the number
      of seconds. */
  lemma ClockTextRoundTrip(elapsed: nat)
    ensures var t := ClockText(elapsed);
      && |t| >= 9
      && t[|t| - 7] == ':' && t[|t| - 4] == ':' && t[|t| - 1] == ' '
      && AllDigits(t[..|t| - 7]) && AllDigits(t[|t| - 6..|t| - 4]) && AllDigits(t[|t| - 3..|t| - 1])
      && DigitsValue(t[..|t| - 7]) * 3600
         + DigitsValue(t[|t| - 6..|t| - 4]) * 60
         + DigitsValue(t[|t| - 3..|t| - 1]) == elapsed
  {
    var d := Decompose(elapsed);
    var h, m, s := TwoDigits(d.hours), TwoDigits(d.minutes), TwoDigits(d.seconds);
    var t := ClockText(elapsed);
    assert t == h + ":" + m + ":" + s + " ";
    assert |m| == 2 && |s| == 2;
    assert t[..|t| - 7] == h;
    assert t[|t| - 6..|t| - 4] == m;
    assert t[|t| - 3..|t| - 1] == s;
  }

  /** getFinalTime: "--" when the timer was never started, otherwise the
      clock text of the elapsed seconds. The two cannot be confused: clock
      text ends in a blank. */
  function FinalTime(started: bool, elapsed: nat): (t: string)
    ensures t == "--" <==> !started
    ensures started ==> t == ClockText(elapsed)
  {
    if !started then "--" else ClockText(elapsed)
  }
}
