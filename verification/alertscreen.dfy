/** The alert screen (components/alert/AlertScreen.tsx): the grace-window
    countdown, its `m:ss` rendering and when the cancel button is offered. */
module AlertScreen {
  import opened Wrappers
  import opened Text

  /** Whether the countdown effect starts: only for a truthy grace-window end. */
  predicate CountdownRuns(graceWindowEnd: Option<int>) {
    graceWindowEnd.Some? && graceWindowEnd.value != 0
  }

  /** `Math.max(0, graceWindowEnd - now)`: the milliseconds shown, never negative. */
  function Remaining(graceWindowEnd: int, now: int): (r: nat)
    ensures r >= graceWindowEnd - now
    ensures r == 0 || r == graceWindowEnd - now
    ensures r > 0 <==> now < graceWindowEnd
  {
    if graceWindowEnd - now > 0 then graceWindowEnd - now else 0
  }

  /** The displayed time remaining after a tick at `now`: the clamped
      remaining time while the countdown runs, the initial 0 otherwise. */
  function DisplayedRemaining(graceWindowEnd: Option<int>, now: int): (r: nat)
    ensures !CountdownRuns(graceWindowEnd) ==> r == 0
    ensures CountdownRuns(graceWindowEnd) ==> r == Remaining(graceWindowEnd.value, now)
  {
    if CountdownRuns(graceWindowEnd) then Remaining(graceWindowEnd.value, now) else 0
  }

  /** JavaScript's `%`, whose remainder takes the sign of the dividend. */
  function JsRem(a: int, b: int): (r: int)
    requires b > 0
    ensures a >= 0 ==> 0 <= r < b && r == a % b
    ensures a < 0 ==> -b < r <= 0
  {
    if a >= 0 then a % b else -((-a) % b)
  }

  /** `formatTime`: whole minutes, a colon, and the seconds padded to two
      digits. For a non-negative time the text is `m:ss`: the minutes, a
      colon and exactly two seconds digits; read back, minutes times sixty
      plus seconds is the whole number of seconds in `ms`, with the seconds
      below sixty. */
  function FormatTime(ms: int): (r: string)
    ensures ms >= 0 ==>
              var parts := Split(r, ':');
              && |parts| == 2
              && |parts[1]| == 2 && AllDigits(parts[1])
              && ParseInt(parts[0]).Some? && ParseInt(parts[1]).Some?
              && 0 <= ParseInt(parts[1]).value < 60
              && ParseInt(parts[0]).value * 60 + ParseInt(parts[1]).value == ms / 1000
  {
    var totalSeconds := ms / 1000;
    var minutes := totalSeconds / 60;
    var seconds := JsRem(totalSeconds, 60);
    var text := IntToString(minutes) + ":" + PadStart2(IntToString(seconds));
    if ms >= 0 then
      MinutesSecondsReadBack(minutes, seconds, IntToString(minutes), PadStart2(IntToString(seconds)));
      text
    else text
  }

  /** Minutes and a seconds value below sixty, written as `formatTime`
      writes them, split at the colon and read back. */
  lemma MinutesSecondsReadBack(minutes: nat, seconds: nat, m: string, sec: string)
    requires seconds < 60
    requires m == IntToString(minutes) && sec == PadStart2(IntToString(seconds))
    ensures var parts := Split(m + ":" + sec, ':');
            && |parts| == 2
            && |parts[1]| == 2 && AllDigits(parts[1])
            && ParseInt(parts[0]) == Some(minutes as int) && ParseInt(parts[1]) == Some(seconds as int)
  {
    PaddedSeconds(seconds);
    ParseIntRendered(minutes, "");
    assert m + "" == m;
    ColonSplit(m, sec);
  }

  /** Two runs of digits joined by a colon split back into the two runs. */
  lemma ColonSplit(m: string, sec: string)
    requires AllDigits(m) && AllDigits(sec)
    ensures Split(m + ":" + sec, ':') == [m, sec]
  {
    assert ':' !in m && ':' !in sec;
    assert m + ":" + sec == m + [':'] + sec;
    SplitTwo(m, sec, ':');
  }

  /** The padded seconds field: two digits that read back as the seconds. */
  lemma PaddedSeconds(seconds: nat)
    requires seconds < 60
    ensures var s := PadStart2(NatToString(seconds));
            |s| == 2 && AllDigits(s) && ParseInt(s).Some? && ParseInt(s).value == seconds
  {
    TwoDigits(seconds);
    ParseIntDigitString(PadStart2(NatToString(seconds)));
  }

  /** What the screen shows. */
  datatype View = Hidden | Shown(countdown: Option<string>, cancelOffered: bool, expiredBanner: bool)

  /** Nothing while the alert is inactive; otherwise the countdown and the
      cancel button while time remains, and the expired banner instead of
      the button once it has run out. */
  function Render(isAlertActive: bool, timeRemaining: nat): (v: View)
    ensures v.Hidden? <==> !isAlertActive
    ensures v.Shown? ==> (v.cancelOffered <==> timeRemaining > 0)
    ensures v.Shown? ==> (v.expiredBanner <==> !v.cancelOffered)
    ensures v.Shown? ==> (v.countdown.Some? <==> timeRemaining > 0)
  {
    if !isAlertActive then Hidden
    else if timeRemaining > 0 then Shown(Some(FormatTime(timeRemaining)), true, false)
    else Shown(None, false, true)
  }

  /** Once `now` reaches the end of the grace window the button is gone, and
      strictly before it the button is offered. */
  lemma CancelOfferedUntilEnd(graceWindowEnd: int, now: int)
    requires graceWindowEnd != 0
    ensures Render(true, DisplayedRemaining(Some(graceWindowEnd), now)).cancelOffered <==> now < graceWindowEnd
  {
  }
}
