/** Recurring check-ins: the form that creates one (app/flows/scheduled.tsx)
    and the computation of its next reminder (lib/services/scheduledCheckIns.ts).
    The clock is the wall clock of the schedule's time zone, to the second;
    the notification library that receives the reminder is outside the model. */
module Schedule {
  import opened Wrappers
  import opened Text

  /** A recurring check-in: the weekdays it fires on (0 is Sunday), its
      `HH:MM` time and the check-in duration in minutes. */
  datatype ScheduledCheckIn = ScheduledCheckIn(id: string, name: string, time: string, days: seq<int>,
                                               isActive: bool, duration: int)

  /** The wall clock: weekday (0 is Sunday), hour, minute and second. */
  datatype Clock = Clock(day: int, hour: int, minute: int, second: int)

  predicate ValidClock(c: Clock) {
    0 <= c.day < 7 && 0 <= c.hour < 24 && 0 <= c.minute < 60 && 0 <= c.second < 60
  }

  const MINUTES_PER_DAY := 1440

  /** The minute of the day the clock shows. */
  function NowMinute(c: Clock): int {
    c.hour * 60 + c.minute
  }

  // ---------------------------------------------------------------------------
  // The time field

  /** `time.split(':').map(Number)`, first two pieces: hours and minutes,
      `None` when a piece is missing or reads as NaN. Every text the form's
      pattern accepts reads as an hour below 24 and a minute below 60. */
  function ParseClockTime(time: string): (r: Option<(int, int)>)
    ensures TimeMatches(time) ==> r.Some? && 0 <= r.value.0 < 24 && 0 <= r.value.1 < 60
  {
    MatchedFields(time);
    var parts := Split(time, ':');
    if |parts| < 2 then None
    else
      var h := DecimalNumber(parts[0]);
      var m := DecimalNumber(parts[1]);
      if h.Some? && m.Some? then Some((h.value, m.value)) else None
  }

  predicate HourPair(a: char, b: char) {
    ('0' <= a <= '1' && IsDigit(b)) || (a == '2' && '0' <= b <= '3')
  }

  /** The form's pattern `^([0-1]?[0-9]|2[0-3]):[0-5][0-9]$`: a one-digit
      hour, or a two-digit hour up to 23, a colon and two minute digits up to 59. */
  predicate TimeMatches(t: string) {
    || (|t| == 4 && IsDigit(t[0]) && t[1] == ':' && '0' <= t[2] <= '5' && IsDigit(t[3]))
    || (|t| == 5 && HourPair(t[0], t[1]) && t[2] == ':' && '0' <= t[3] <= '5' && IsDigit(t[4]))
  }

  /** A time of day written with the hour padded to two digits or not, and
      the minutes always padded. */
  function ClockText(hour: nat, minute: nat, padded: bool): string
    requires hour < 24 && minute < 60 && (padded || hour < 10)
  {
    HourText(hour, padded) + ":" + MinuteText(minute)
  }

  /** Every time of day, in either spelling the pattern allows, matches it
      and reads back as the same hour and minute. */
  lemma ClockTextMatches(hour: nat, minute: nat, padded: bool)
    requires hour < 24 && minute < 60 && (padded || hour < 10)
    ensures TimeMatches(ClockText(hour, minute, padded))
    ensures var hm := ParseClockTime(ClockText(hour, minute, padded));
            hm.Some? && hm.value == (hour, minute)
  {
    var hs := HourText(hour, padded);
    var ms := MinuteText(minute);
    var t := hs + [':'] + ms;
    assert ClockText(hour, minute, padded) == t;
    ReadFields(hs, ms);
    FieldsMatch(hs, ms);
  }

  lemma FieldsMatch(hs: string, ms: string)
    requires (|hs| == 2 && HourPair(hs[0], hs[1])) || (|hs| == 1 && IsDigit(hs[0]))
    requires |ms| == 2 && '0' <= ms[0] <= '5' && IsDigit(ms[1])
    ensures TimeMatches(hs + [':'] + ms)
  {
    var t := hs + [':'] + ms;
    if |hs| == 2 {
      assert t[0] == hs[0] && t[1] == hs[1] && t[2] == ':' && t[3] == ms[0] && t[4] == ms[1];
    } else {
      assert t[0] == hs[0] && t[1] == ':' && t[2] == ms[0] && t[3] == ms[1];
    }
  }

  /** The minute field of `ClockText`. */
  function MinuteText(minute: nat): (ms: string)
    requires minute < 60
    ensures |ms| == 2 && AllDigits(ms) && DigitsValue(ms) == minute
    ensures '0' <= ms[0] <= '5'
  {
    TwoDigits(minute);
    PaddedDigits(minute);
    PadStart2(NatToString(minute))
  }

  /** The hour field of `ClockText`. */
  function HourText(hour: nat, padded: bool): (hs: string)
    requires hour < 24 && (padded || hour < 10)
    ensures |hs| == (if padded then 2 else 1) && AllDigits(hs) && DigitsValue(hs) == hour
    ensures padded ==> HourPair(hs[0], hs[1])
  {
    TwoDigits(hour);
    NatToStringRoundTrip(hour);
    if padded then
      PaddedDigits(hour);
      PadStart2(NatToString(hour))
    else
      NatToString(hour)
  }

  /** A number below one hundred, padded, is its tens digit and its units digit. */
  lemma PaddedDigits(n: nat)
    requires n < 100
    ensures PadStart2(NatToString(n)) == [DigitChar(n / 10), DigitChar(n % 10)]
  {
    RenderedPair(n / 10, n % 10);
  }

  /** Conversely every text the pattern accepts is a time of day in one of
      those spellings, and reads back as an hour below 24 and a minute below 60. */
  lemma MatchedTimeIsClockText(t: string)
    requires TimeMatches(t)
    ensures var hm := ParseClockTime(t);
            && hm.Some? && 0 <= hm.value.0 < 24 && 0 <= hm.value.1 < 60
            && (|t| == 5 || hm.value.0 < 10)
            && t == ClockText(hm.value.0, hm.value.1, |t| == 5)
  {
    var hs, ms := FieldsOfMatch(t);
    ReadFields(hs, ms);
    FieldsRenderBack(hs, ms);
    assert Split(t, ':') == [hs, ms];
    assert ParseClockTime(t) == Some((DigitsValue(hs), DigitsValue(ms)));
  }

  /** The fields of an accepted time are in range and are rendered back
      exactly by `ClockText`. */
  lemma FieldsRenderBack(hs: string, ms: string)
    requires AllDigits(hs) && AllDigits(ms) && |ms| == 2 && '0' <= ms[0] <= '5'
    requires (|hs| == 1 && IsDigit(hs[0])) || (|hs| == 2 && HourPair(hs[0], hs[1]))
    ensures DigitsValue(hs) < 24 && DigitsValue(ms) < 60 && (|hs| == 2 || DigitsValue(hs) < 10)
    ensures ClockText(DigitsValue(hs), DigitsValue(ms), |hs| == 2) == hs + [':'] + ms
  {
    HourRenderBack(hs);
    MinuteRenderBack(ms);
  }

  lemma HourRenderBack(hs: string)
    requires AllDigits(hs)
    requires (|hs| == 1 && IsDigit(hs[0])) || (|hs| == 2 && HourPair(hs[0], hs[1]))
    ensures DigitsValue(hs) < 24 && (|hs| == 2 || DigitsValue(hs) < 10)
    ensures HourText(DigitsValue(hs), |hs| == 2) == hs
  {
    if |hs| == 2 {
      PaddedHourRenderBack(hs);
    } else {
      RenderedOneDigit(hs);
      assert HourText(DigitsValue(hs), false) == NatToString(DigitsValue(hs));
    }
  }

  lemma PaddedHourRenderBack(hs: string)
    requires |hs| == 2 && AllDigits(hs) && HourPair(hs[0], hs[1])
    ensures DigitsValue(hs) < 24 && HourText(DigitsValue(hs), true) == hs
  {
    TwoDigitValue(hs);
    var a, b := DigitValue(hs[0]), DigitValue(hs[1]);
    assert a <= 1 || (a == 2 && b <= 3);
    assert DigitsValue(hs) < 24;
    RenderedTwoDigits(hs);
    assert HourText(DigitsValue(hs), true) == PadStart2(NatToString(DigitsValue(hs)));
  }

  lemma MinuteRenderBack(ms: string)
    requires AllDigits(ms) && |ms| == 2 && '0' <= ms[0] <= '5'
    ensures DigitsValue(ms) < 60 && MinuteText(DigitsValue(ms)) == ms
  {
    TwoDigitValue(ms);
    RenderedTwoDigits(ms);
  }

  /** The hour and minute fields of a text the pattern accepts. */
  lemma FieldsOfMatch(t: string) returns (hs: string, ms: string)
    requires TimeMatches(t)
    ensures t == hs + [':'] + ms && |hs| == |t| - 3
    ensures AllDigits(hs) && AllDigits(ms) && |ms| == 2 && '0' <= ms[0] <= '5'
    ensures (|hs| == 1 && IsDigit(hs[0])) || (|hs| == 2 && HourPair(hs[0], hs[1]))
  {
    var i := |t| - 3;
    hs := t[..i];
    ms := t[i + 1..];
    assert t == hs + [':'] + ms;
  }

  /** The fields of an accepted text, split at the colon and read as numbers. */
  lemma MatchedFields(t: string)
    ensures TimeMatches(t) ==>
              var parts := Split(t, ':');
              && |parts| == 2
              && DecimalNumber(parts[0]).Some? && 0 <= DecimalNumber(parts[0]).value < 24
              && DecimalNumber(parts[1]).Some? && 0 <= DecimalNumber(parts[1]).value < 60
  {
    if TimeMatches(t) {
      var hs, ms := FieldsOfMatch(t);
      ReadFields(hs, ms);
      FieldsRenderBack(hs, ms);
    }
  }

  /** Two runs of digits around a colon split into the two runs, each read
      as its decimal value. */
  lemma ReadFields(hs: string, ms: string)
    requires hs != [] && ms != [] && AllDigits(hs) && AllDigits(ms)
    ensures Split(hs + [':'] + ms, ':') == [hs, ms]
    ensures DecimalNumber(hs) == Some(DigitsValue(hs)) && DecimalNumber(ms) == Some(DigitsValue(ms))
  {
    DigitsNoColon(hs);
    DigitsNoColon(ms);
    SplitTwo(hs, ms, ':');
    DecimalNumberDigitString(hs);
    DecimalNumberDigitString(ms);
  }

  lemma DigitsNoColon(s: string)
    requires AllDigits(s)
    ensures ':' !in s
  {
    assert forall k :: 0 <= k < |s| ==> s[k] != ':';
  }

  lemma TwoDigitValue(s: string)
    requires |s| == 2 && AllDigits(s)
    ensures DigitsValue(s) == 10 * DigitValue(s[0]) + DigitValue(s[1])
  {
    var p := s[..1];
    assert s[..|s| - 1] == p;
    assert p[..|p| - 1] == [];
    assert DigitsValue(p) == DigitValue(s[0]);
  }

  /** Two digits are the padded rendering of their value. */
  lemma RenderedTwoDigits(s: string)
    requires |s| == 2 && AllDigits(s)
    ensures PadStart2(NatToString(DigitsValue(s))) == s
  {
    var a, b := DigitValue(s[0]), DigitValue(s[1]);
    TwoDigitValue(s);
    DigitCharOfValue(s[0]);
    DigitCharOfValue(s[1]);
    RenderedPair(a, b);
    assert s == [s[0], s[1]];
  }

  lemma RenderedPair(a: nat, b: nat)
    requires a < 10 && b < 10
    ensures PadStart2(NatToString(10 * a + b)) == [DigitChar(a), DigitChar(b)]
  {
    var v := 10 * a + b;
    if a == 0 {
      assert NatToString(v) == [DigitChar(b)];
      assert DigitChar(0) == '0';
    } else {
      assert v / 10 == a && v % 10 == b;
      assert NatToString(v) == NatToString(a) + [DigitChar(b)];
    }
  }

  lemma DigitCharOfValue(c: char)
    requires IsDigit(c)
    ensures DigitChar(DigitValue(c)) == c
  {
  }

  /** One digit is the rendering of its value. */
  lemma RenderedOneDigit(s: string)
    requires |s| == 1 && AllDigits(s)
    ensures DigitsValue(s) < 10 && NatToString(DigitsValue(s)) == s
  {
    assert s[..0] == [];
  }

  // ---------------------------------------------------------------------------
  // The weekday search

  /** The weekday `i` days after `currentDay`: `(currentDay + i) % 7`. */
  function Weekday(currentDay: int, i: int): int {
    (currentDay + i) % 7
  }

  /** The first `i` from `from` on, below 7, whose weekday `(currentDay + i) % 7`
      is one of `days`. */
  function FirstMatch(days: seq<int>, currentDay: int, from: nat): (r: Option<nat>)
    requires from <= 7
    ensures r.Some? ==> from <= r.value < 7 && Weekday(currentDay, r.value) in days
    ensures r.Some? ==> forall j :: from <= j < r.value ==> Weekday(currentDay, j) !in days
    ensures r.None? <==> forall j :: from <= j < 7 ==> Weekday(currentDay, j) !in days
    decreases 7 - from
  {
    if from == 7 then None
    else if Weekday(currentDay, from) in days then Some(from)
    else FirstMatch(days, currentDay, from + 1)
  }

  /** The smallest of `days`: `sortedDays[0]`. */
  function Least(days: seq<int>): (r: int)
    requires days != []
    ensures r in days && forall d :: d in days ==> r <= d
  {
    if |days| == 1 then days[0]
    else
      var rest := Least(days[1..]);
      assert forall d :: d in days ==> d == days[0] || d in days[1..];
      if days[0] <= rest then days[0] else rest
  }

  /** The smallest of `days` above `bound`: `sortedDays.find(day => day > bound)`. */
  function LeastAbove(days: seq<int>, bound: int): (r: Option<int>)
    ensures r.Some? <==> exists d :: d in days && d > bound
    ensures r.Some? ==> r.value in days && r.value > bound
    ensures r.Some? ==> forall d :: d in days && d > bound ==> r.value <= d
  {
    if days == [] then None
    else
      var rest := LeastAbove(days[1..], bound);
      assert forall d :: d in days <==> d == days[0] || d in days[1..];
      assert days[0] in days;
      if days[0] > bound && (rest.None? || days[0] <= rest.value) then Some(days[0]) else rest
  }

  /** The fallback after a fruitless search: the next listed day above the
      current one, else the smallest, counted forward from the current day.
      An empty list leaves `nextDay` undefined and the offset NaN, `None`. */
  function Fallback(days: seq<int>, currentDay: int): (r: Option<int>)
    ensures r.Some? <==> days != []
  {
    if days == [] then None
    else
      var nextDay := if LeastAbove(days, currentDay).Some? then LeastAbove(days, currentDay).value else Least(days);
      Some(if nextDay > currentDay then nextDay - currentDay else (7 - currentDay) + nextDay)
  }

  /** The number of days from the current weekday to the reminder. */
  function NextOffset(days: seq<int>, currentDay: int): Option<int> {
    var found := FirstMatch(days, currentDay, 0);
    if found.Some? then Some(found.value) else Fallback(days, currentDay)
  }

  /** The search loop as written, with the fallback test
      `daysToAdd === 0 && !days.includes(currentDay)`. */
  method DaysToAdd(days: seq<int>, currentDay: int) returns (daysToAdd: Option<int>)
    requires 0 <= currentDay < 7
    ensures daysToAdd == NextOffset(days, currentDay)
    ensures (exists d :: d in days && 0 <= d < 7) ==>
              daysToAdd.Some? && 0 <= daysToAdd.value < 7 && Weekday(currentDay, daysToAdd.value) in days
  {
    var n := 0;
    var i := 0;
    while i < 7
      invariant 0 <= i <= 7
      invariant n == 0
      invariant forall j :: 0 <= j < i ==> Weekday(currentDay, j) !in days
    {
      if Weekday(currentDay, i) in days {
        n := i;
        break;
      }
      i := i + 1;
    }
    if n == 0 && currentDay !in days {
      assert Weekday(currentDay, 0) == currentDay;
      SearchSucceeds(days, currentDay);
      daysToAdd := Fallback(days, currentDay);
    } else {
      daysToAdd := Some(n);
    }
  }

  /** When some listed day is a weekday the search finds it, so the fallback
      is never reached. */
  lemma SearchSucceeds(days: seq<int>, currentDay: int)
    requires 0 <= currentDay < 7
    ensures (exists d :: d in days && 0 <= d < 7) <==> FirstMatch(days, currentDay, 0).Some?
  {
    if d :| d in days && 0 <= d < 7 {
      var j := if d >= currentDay then d - currentDay else d - currentDay + 7;
      assert Weekday(currentDay, j) == d;
    }
  }

  /** Only which days are listed matters, not their order or repetition. */
  lemma OffsetDependsOnDaySet(a: seq<int>, b: seq<int>, currentDay: int)
    requires forall d :: d in a <==> d in b
    ensures NextOffset(a, currentDay) == NextOffset(b, currentDay)
  {
    SameFirstMatch(a, b, currentDay, 0);
    assert a == [] <==> b == [] by {
      assert a != [] ==> a[0] in b;
      assert b != [] ==> b[0] in a;
    }
    if a != [] {
      var la := LeastAbove(a, currentDay);
      var lb := LeastAbove(b, currentDay);
      assert la.Some? ==> lb.Some? && la.value == lb.value;
      assert Least(a) == Least(b);
    }
  }

  lemma {:induction false} SameFirstMatch(a: seq<int>, b: seq<int>, currentDay: int, from: nat)
    requires from <= 7
    requires forall d :: d in a <==> d in b
    ensures FirstMatch(a, currentDay, from) == FirstMatch(b, currentDay, from)
    decreases 7 - from
  {
    if from < 7 {
      SameFirstMatch(a, b, currentDay, from + 1);
    }
  }

  // ---------------------------------------------------------------------------
  // scheduleCheckInNotification

  /** The reminder handed to the notification library: its text, the number
      of days from today and the minute of that day it fires at. */
  datatype Reminder = Reminder(title: string, body: string, dayOffset: int, minuteOfDay: int)

  const REMINDER_TITLE := "Check-In Reminder"

  /** The reminder for `sc` seen at `clock`: today at the check-in's time,
      moved to tomorrow when that is not after now, then forward to the next
      listed weekday. `None` when the trigger date is not a number: a time
      that does not parse, or an empty day list. An hour or minute outside its
      range rolls over into the neighbouring minutes and days, as the date
      setters do. */
  function NextReminder(sc: ScheduledCheckIn, clock: Clock): (r: Option<Reminder>)
    ensures r.Some? ==> 0 <= r.value.minuteOfDay < MINUTES_PER_DAY
    ensures r.Some? ==> r.value.title == REMINDER_TITLE && EndsWith(r.value.body, sc.name)
  {
    ReminderFor(sc.name, sc.time, sc.days, clock)
  }

  function ReminderFor(name: string, time: string, days: seq<int>, clock: Clock): (r: Option<Reminder>)
    ensures r.Some? ==> 0 <= r.value.minuteOfDay < MINUTES_PER_DAY
    ensures r.Some? ==> r.value.title == REMINDER_TITLE && EndsWith(r.value.body, name)
  {
    ReminderOfParsed(name, ParseClockTime(time), days, clock)
  }

  /** The reminder for a parsed time: none when it did not parse, otherwise
      the reminder for the minute of the day it names. */
  function ReminderOfParsed(name: string, hm: Option<(int, int)>, days: seq<int>, clock: Clock): (r: Option<Reminder>)
    ensures hm.None? ==> r.None?
    ensures hm.Some? ==> r == ReminderAt(name, days, hm.value.0 * 60 + hm.value.1, clock)
  {
    if hm.None? then None else ReminderAt(name, days, hm.value.0 * 60 + hm.value.1, clock)
  }

  /** The reminder for a check-in set for minute `target` of today. */
  function ReminderAt(name: string, days: seq<int>, target: int, clock: Clock): (r: Option<Reminder>)
    ensures r.Some? ==> 0 <= r.value.minuteOfDay < MINUTES_PER_DAY
    ensures r.Some? ==> r.value.title == REMINDER_TITLE && EndsWith(r.value.body, name)
  {
    var start := if target <= NowMinute(clock) then target + MINUTES_PER_DAY else target;
    var startDay := start / MINUTES_PER_DAY;
    var offset := NextOffset(days, Weekday(clock.day, startDay));
    if offset.None? then None
    else
      EndsWithConcat("Time for your scheduled check-in: ", name);
      Some(Reminder(REMINDER_TITLE, "Time for your scheduled check-in: " + name,
                    startDay + offset.value, start % MINUTES_PER_DAY))
  }

  /** Whether firing `dayOffset` days from today at `minuteOfDay` is after now. */
  predicate FiresAfter(dayOffset: int, minuteOfDay: int, clock: Clock) {
    dayOffset * MINUTES_PER_DAY + minuteOfDay > NowMinute(clock)
  }

  /** `r` is the next occurrence of minute `minute` on one of `days` after
      the clock: a reminder at that minute of the day, on a listed weekday,
      after now, with no earlier listed day after now. */
  predicate NextOccurrence(r: Option<Reminder>, days: seq<int>, minute: int, clock: Clock) {
    && r.Some?
    && r.value.minuteOfDay == minute
    && 0 <= r.value.dayOffset <= 7
    && Weekday(clock.day, r.value.dayOffset) in days
    && FiresAfter(r.value.dayOffset, minute, clock)
    && forall d :: 0 <= d < r.value.dayOffset ==> !(Weekday(clock.day, d) in days && FiresAfter(d, minute, clock))
  }

  /** For a time the form accepts and a day list holding some weekday, the
      reminder fires at that time of day, on a listed weekday, after now, and
      no earlier day would have done: it is the next occurrence. */
  lemma ReminderIsNextOccurrence(sc: ScheduledCheckIn, clock: Clock)
    requires ValidClock(clock) && TimeMatches(sc.time)
    requires exists d :: d in sc.days && 0 <= d < 7
    ensures var hm := ParseClockTime(sc.time);
            hm.Some? && NextOccurrence(NextReminder(sc, clock), sc.days, hm.value.0 * 60 + hm.value.1, clock)
  {
    var parsed := ParseClockTime(sc.time);
    assert NextReminder(sc, clock) == ReminderOfParsed(sc.name, parsed, sc.days, clock);
    ReminderOfParsedIsNext(sc.name, parsed.value, sc.days, clock);
  }

  /** The same for a parsed hour and minute of the day. */
  lemma ReminderOfParsedIsNext(name: string, hm: (int, int), days: seq<int>, clock: Clock)
    requires ValidClock(clock) && 0 <= hm.0 < 24 && 0 <= hm.1 < 60
    requires exists d :: d in days && 0 <= d < 7
    ensures NextOccurrence(ReminderOfParsed(name, Some(hm), days, clock), days, hm.0 * 60 + hm.1, clock)
  {
    var target := hm.0 * 60 + hm.1;
    ReminderAtIsNext(name, days, target, clock);
    SameReminder(ReminderOfParsed(name, Some(hm), days, clock), ReminderAt(name, days, target, clock), days, target, clock);
  }

  lemma SameReminder(r: Option<Reminder>, q: Option<Reminder>, days: seq<int>, minute: int, clock: Clock)
    requires r == q && NextOccurrence(q, days, minute, clock)
    ensures NextOccurrence(r, days, minute, clock)
  {
  }

  /** The same for a check-in set for minute `target` of today. */
  lemma ReminderAtIsNext(name: string, days: seq<int>, target: int, clock: Clock)
    requires ValidClock(clock) && 0 <= target < MINUTES_PER_DAY
    requires exists d :: d in days && 0 <= d < 7
    ensures NextOccurrence(ReminderAt(name, days, target, clock), days, target, clock)
  {
    var bump := if target <= NowMinute(clock) then 1 else 0;
    var start := if target <= NowMinute(clock) then target + MINUTES_PER_DAY else target;
    assert start / MINUTES_PER_DAY == bump && start % MINUTES_PER_DAY == target;
    var currentDay := Weekday(clock.day, bump);
    SearchSucceeds(days, currentDay);
    var i := FirstMatch(days, currentDay, 0).value;
    var r := ReminderAt(name, days, target, clock).value;
    assert r.dayOffset == bump + i && r.minuteOfDay == target;
    ShiftWeekday(clock.day, bump, i);
    forall d | 0 <= d < r.dayOffset
      ensures !(Weekday(clock.day, d) in days && FiresAfter(d, target, clock))
    {
      if d >= bump {
        ShiftWeekday(clock.day, bump, d - bump);
        assert Weekday(currentDay, d - bump) !in days;
      }
    }
  }

  lemma ShiftWeekday(day: int, bump: nat, i: nat)
    ensures Weekday(Weekday(day, bump), i) == Weekday(day, bump + i)
  {
  }

  // ---------------------------------------------------------------------------
  // The form: toggleDay and handleAdd

  /** `days.filter(d => d !== day)`. */
  function Without(days: seq<int>, day: int): (r: seq<int>)
    ensures forall d :: d in r <==> d in days && d != day
    ensures |r| <= |days|
  {
    if days == [] then []
    else (if days[0] == day then [] else [days[0]]) + Without(days[1..], day)
  }

  /** `toggleDay`: a selected day is removed, any other day appended. */
  function ToggleDay(selected: seq<int>, day: int): (r: seq<int>)
    ensures day in r <==> day !in selected
    ensures forall d :: d != day ==> (d in r <==> d in selected)
  {
    if day in selected then Without(selected, day) else selected + [day]
  }

  /** Selecting a day and then deselecting it restores the selection exactly. */
  lemma ToggleOnThenOff(selected: seq<int>, day: int)
    requires day !in selected
    ensures ToggleDay(ToggleDay(selected, day), day) == selected
  {
    WithoutAppended(selected, day);
  }

  lemma {:induction false} WithoutAppended(s: seq<int>, day: int)
    requires day !in s
    ensures Without(s + [day], day) == s
  {
    if s != [] {
      assert (s + [day])[1..] == s[1..] + [day];
      WithoutAppended(s[1..], day);
      assert s == [s[0]] + s[1..];
    }
  }

  predicate SortedAsc(s: seq<int>) {
    forall i, j :: 0 <= i < j < |s| ==> s[i] <= s[j]
  }

  /** `x` placed into a sorted list. */
  function Insert(x: int, s: seq<int>): (r: seq<int>)
    requires SortedAsc(s)
    ensures |r| == |s| + 1
    ensures SortedAsc(r) && multiset(r) == multiset(s) + multiset{x}
  {
    if s == [] then [x]
    else if x <= s[0] then
      HeadLeast(s);
      ConsSorted(x, s);
      [x] + s
    else
      var rest := Insert(x, s[1..]);
      InsertedAbove(x, s, rest);
      ConsSorted(s[0], rest);
      assert s == [s[0]] + s[1..];
      [s[0]] + rest
  }

  /** Inserting above the head of a sorted list keeps every element at
      least the head. */
  lemma InsertedAbove(x: int, s: seq<int>, rest: seq<int>)
    requires SortedAsc(s) && s != [] && s[0] < x
    requires multiset(rest) == multiset(s[1..]) + multiset{x}
    ensures forall k :: 0 <= k < |rest| ==> s[0] <= rest[k]
  {
    HeadLeast(s);
    forall k | 0 <= k < |rest|
      ensures s[0] <= rest[k]
    {
      assert rest[k] in multiset(rest);
      if rest[k] != x {
        assert rest[k] in multiset(s[1..]);
        assert s == [s[0]] + s[1..];
        assert rest[k] in s;
      }
    }
  }

  lemma HeadLeast(s: seq<int>)
    requires SortedAsc(s) && s != []
    ensures forall y :: y in s ==> s[0] <= y
  {
    forall y | y in s ensures s[0] <= y {
      var k :| 0 <= k < |s| && s[k] == y;
      assert k == 0 || s[0] <= s[k];
    }
  }

  lemma ConsSorted(a: int, s: seq<int>)
    requires SortedAsc(s) && forall k :: 0 <= k < |s| ==> a <= s[k]
    ensures SortedAsc([a] + s)
  {
    var t := [a] + s;
    forall i, j | 0 <= i < j < |t|
      ensures t[i] <= t[j]
    {
      assert t[j] == s[j - 1];
      if i > 0 {
        assert t[i] == s[i - 1];
      }
    }
  }

  /** `[...days].sort((a, b) => a - b)`: the same days in ascending order. */
  function SortAsc(s: seq<int>): (r: seq<int>)
    ensures SortedAsc(r) && multiset(r) == multiset(s)
  {
    if s == [] then []
    else
      assert s == [s[0]] + s[1..];
      Insert(s[0], SortAsc(s[1..]))
  }

  /** Why the form refuses a new check-in, in the order it checks. */
  datatype AddError = NameMissing | TimeInvalid | NoDaySelected | DurationInvalid

  /** The record `handleAdd` submits; the store gives it its id. */
  datatype NewCheckIn = NewCheckIn(name: string, time: string, days: seq<int>, isActive: bool, duration: int)

  /** `parseInt(duration, 10)` is a number from 1 to 60. */
  predicate DurationAccepted(duration: string) {
    ParseInt(duration).Some? && 1 <= ParseInt(duration).value <= 60
  }

  /** `handleAdd`: the first failed check is reported and nothing is
      submitted; otherwise the trimmed name, the time as typed, the selected
      days in ascending order, active, and the parsed duration. */
  function HandleAdd(name: string, time: string, selectedDays: seq<int>, duration: string): (r: Result<NewCheckIn, AddError>)
    ensures IsBlank(name) ==> r == Err(NameMissing)
    ensures !IsBlank(name) && !TimeMatches(time) ==> r == Err(TimeInvalid)
    ensures !IsBlank(name) && TimeMatches(time) && selectedDays == [] ==> r == Err(NoDaySelected)
    ensures !IsBlank(name) && TimeMatches(time) && selectedDays != [] && !DurationAccepted(duration) ==>
              r == Err(DurationInvalid)
    ensures r.Ok? <==> !IsBlank(name) && TimeMatches(time) && selectedDays != [] && DurationAccepted(duration)
    ensures r.Ok? ==> && r.value.name == Trim(name) && r.value.name != ""
                      && r.value.time == time && r.value.isActive
                      && SortedAsc(r.value.days) && multiset(r.value.days) == multiset(selectedDays)
                      && 1 <= r.value.duration <= 60 && ParseInt(duration) == Some(r.value.duration)
  {
    if IsBlank(name) then Err(NameMissing)
    else if !TimeMatches(time) then Err(TimeInvalid)
    else if |selectedDays| == 0 then Err(NoDaySelected)
    else if !DurationAccepted(duration) then Err(DurationInvalid)
    else Ok(NewCheckIn(Trim(name), time, SortAsc(selectedDays), true, ParseInt(duration).value))
  }

  /** A check-in the form accepts, with days picked from the week, always
      gets a reminder: at its time, on one of its days, after now, with no
      earlier matching day. */
  lemma AcceptedCheckInIsReminded(name: string, time: string, selectedDays: seq<int>, duration: string,
                                  id: string, clock: Clock)
    requires ValidClock(clock)
    requires forall k :: 0 <= k < |selectedDays| ==> 0 <= selectedDays[k] < 7
    requires HandleAdd(name, time, selectedDays, duration).Ok?
    ensures var c := HandleAdd(name, time, selectedDays, duration).value;
            var sc := ScheduledCheckIn(id, c.name, c.time, c.days, c.isActive, c.duration);
            var r := NextReminder(sc, clock);
            && r.Some?
            && Weekday(clock.day, r.value.dayOffset) in selectedDays
            && FiresAfter(r.value.dayOffset, r.value.minuteOfDay, clock)
  {
    var c := HandleAdd(name, time, selectedDays, duration).value;
    var sc := ScheduledCheckIn(id, c.name, c.time, c.days, c.isActive, c.duration);
    assert selectedDays[0] in multiset(c.days);
    assert selectedDays[0] in sc.days;
    ReminderIsNextOccurrence(sc, clock);
    var r := NextReminder(sc, clock).value;
    assert Weekday(clock.day, r.dayOffset) in multiset(selectedDays);
  }
}
