/** The check-in hook (lib/hooks/useCheckIn.ts): starting and confirming a
    check-in, with the ledger call and the last-known-state write around the
    store transition; the countdown and its per-second tick; and the texts
    sent once the alert fires. The ledger's answer, the location fix, the
    clock and the configured settings arrive as parameters. */
module CheckInHook {
  import opened Wrappers
  import opened Bytes
  import opened Text
  import opened Location
  import Store
  import Sms
  import Escalation

  // ---------------------------------------------------------------------------
  // Deadline

  /** `(checkInDurationMinutes || 5) * 60 * 1000`: the configured length, or
      five minutes when the setting is 0. */
  function DurationMs(minutes: int): (ms: int)
    ensures minutes != 0 ==> ms == minutes * 60000
    ensures minutes == 0 ==> ms == Store.CHECK_IN_DURATION_MS
  {
    (if minutes != 0 then minutes else 5) * 60 * 1000
  }

  /** `Math.floor((now + durationMs) / 1000)`: the on-chain deadline in
      whole seconds, the greatest second not after the end of the check-in. */
  function Deadline(now: int, minutes: int): (d: int)
    ensures d * 1000 <= now + DurationMs(minutes) < d * 1000 + 1000
  {
    (now + DurationMs(minutes)) / 1000
  }

  /** The store's due time and the ledger's deadline come from separate
      clock readings: `tDeadline` before the ledger call and `tStore` after
      it. In milliseconds, the store's due time exceeds the deadline by the
      time the ledger call took, plus the five minutes the store always
      counts less the configured duration, plus the milliseconds the
      deadline rounds away. */
  lemma StoreDueMinusDeadline(st: Store.State, tDeadline: int, tStore: int, minutes: int)
    ensures Store.StartCheckIn(st, tStore).checkIn.value.checkInTime - 1000 * Deadline(tDeadline, minutes)
            == (tStore - tDeadline) + (Store.CHECK_IN_DURATION_MS - DurationMs(minutes))
               + (tDeadline + DurationMs(minutes)) % 1000
  {
  }

  /** When both readings give the same instant (a ledger call that takes no
      time), the ledger's deadline and the store's due time, in whole
      seconds, agree exactly when the check-in lasts five minutes: the store
      always counts five minutes, whatever the configured duration. */
  lemma DeadlineAgreesWithStoreOnlyAtFive(st: Store.State, now: int, minutes: int)
    ensures Deadline(now, minutes) == Store.StartCheckIn(st, now).checkIn.value.checkInTime / 1000
            <==> minutes == 0 || minutes == 5
  {
    var m := if minutes != 0 then minutes else 5;
    assert DurationMs(minutes) == 1000 * (60 * m);
    SecondsShift(now, 60 * m);
    SecondsShift(now, 300);
  }

  /** With a five-minute setting and a ledger call that takes at least a
      second, the store's due time falls in a later second than the
      ledger's deadline: the two disagree however the clock reads. */
  lemma SlowLedgerCallSplitsDeadline(st: Store.State, tDeadline: int, tStore: int, minutes: int)
    requires minutes == 0 || minutes == 5
    requires tStore - tDeadline >= 1000
    ensures Deadline(tDeadline, minutes) < Store.StartCheckIn(st, tStore).checkIn.value.checkInTime / 1000
  {
    SecondsShift(tDeadline, 300);
    SecondsShift(tDeadline + 1000, 300);
    SecondsShift(tDeadline, 1);
  }

  /** Whole seconds shift with whole thousands of milliseconds. */
  lemma SecondsShift(a: int, k: int)
    ensures (a + 1000 * k) / 1000 == a / 1000 + k
  {
    var q := a / 1000;
    var r := a % 1000;
    assert a + 1000 * k == 1000 * (q + k) + r;
  }

  // ---------------------------------------------------------------------------
  // startCheckIn and confirmCheckIn

  /** The ledger instruction a handler sends. */
  datatype LedgerCall = StartCall(deadline: int, locationHash: seq<Byte>) | ConfirmCall

  /** What a handler did: the ledger instruction it sent, the store and the
      last-known state afterwards, and the processing flag it leaves. */
  datatype Outcome = Outcome(ledger: Option<LedgerCall>, store: Store.State, recorder: Escalation.Recorder,
                             isProcessing: bool)

  function FixOfOption(location: Option<Snapshot>): (f: Option<Fix>)
    ensures f.Some? <==> location.Some?
  {
    if location.Some? then Some(FixOf(location.value)) else None
  }

  /** `startCheckIn`. While an earlier call is processing nothing happens.
      Otherwise the ledger is asked to start a check-in with the deadline and
      the location hash (32 zero bytes without a fix), the store starts the
      check-in and the last known state becomes an active check-in at the
      fix. The handler reads the clock three times: `tDeadline` for the
      deadline, before the ledger call; `tStore` inside the store, after it;
      `tRecord` for the last known state. The ledger's answer is caught and
      only logged, so it is not a parameter: the outcome is the same whether
      the call succeeded or threw. */
  function StartCheckIn(isProcessing: bool, st: Store.State, rec: Escalation.Recorder, location: Option<Snapshot>,
                        sha256: Digests, minutes: int, tDeadline: int, tStore: int, tRecord: int): (o: Outcome)
    ensures isProcessing ==> o == Outcome(None, st, rec, true)
    ensures !isProcessing ==> && o.ledger == Some(StartCall(Deadline(tDeadline, minutes), ContextHash(location, sha256)))
                              && o.store == Store.StartCheckIn(st, tStore)
                              && !o.isProcessing
    ensures !isProcessing && location.None? ==> o.ledger.value.locationHash == ZERO_32
    ensures !isProcessing ==>
              var last := Escalation.GetLastKnownState(o.recorder);
              && last.Some?
              && last.value == Escalation.LastKnownState(tRecord, FixOfOption(location), Escalation.StatusActive, Escalation.CheckInState)
  {
    if isProcessing then Outcome(None, st, rec, true)
    else
      var call := StartCall(Deadline(tDeadline, minutes), ContextHash(location, sha256));
      var last := Escalation.LastKnownState(tRecord, FixOfOption(location), Escalation.StatusActive, Escalation.CheckInState);
      Outcome(Some(call), Store.StartCheckIn(st, tStore), Escalation.UpdateLastKnownState(rec, last), false)
  }

  /** `confirmCheckIn`. While an earlier call is processing nothing happens.
      Otherwise the ledger is asked to confirm, the store confirms the
      check-in and the last known state becomes a confirmed check-in. The
      store's events carry no location, so the recorded location is absent.
      The store reads the clock at `tStore`, the last known state at
      `tRecord`; the ledger's answer is caught and only logged. */
  function ConfirmCheckIn(isProcessing: bool, st: Store.State, rec: Escalation.Recorder, tStore: int, tRecord: int,
                          id: string): (o: Outcome)
    ensures isProcessing ==> o == Outcome(None, st, rec, true)
    ensures !isProcessing ==> && o.ledger == Some(ConfirmCall)
                              && o.store == Store.ConfirmCheckIn(st, tStore, id)
                              && !o.isProcessing
    ensures !isProcessing ==>
              var last := Escalation.GetLastKnownState(o.recorder);
              && last.Some?
              && last.value == Escalation.LastKnownState(tRecord, None, Escalation.StatusConfirmed, Escalation.CheckInState)
  {
    if isProcessing then Outcome(None, st, rec, true)
    else
      var last := Escalation.LastKnownState(tRecord, None, Escalation.StatusConfirmed, Escalation.CheckInState);
      Outcome(Some(ConfirmCall), Store.ConfirmCheckIn(st, tStore, id), Escalation.UpdateLastKnownState(rec, last), false)
  }

  /** Starting and then confirming leaves no check-in running, logs one
      confirmed check-in due five minutes after the start's store reading,
      and records the check-in as confirmed. */
  lemma StartThenConfirm(st: Store.State, rec: Escalation.Recorder, location: Option<Snapshot>, sha256: Digests,
                         minutes: int, t0: int, s0: int, r0: int, s1: int, r1: int, id: string)
    ensures var s := StartCheckIn(false, st, rec, location, sha256, minutes, t0, s0, r0);
            var c := ConfirmCheckIn(s.isProcessing, s.store, s.recorder, s1, r1, id);
            && c.store.checkIn.None?
            && c.store.events == [Store.Event(id, Store.CheckIn, s1, Store.Confirmed, Some(s0 + Store.CHECK_IN_DURATION_MS), None)] + st.events
            && Escalation.GetLastKnownState(c.recorder).value.checkInStatus == Escalation.StatusConfirmed
  {
  }

  // ---------------------------------------------------------------------------
  // Countdown

  /** `checkIn?.graceWindowEnd && Date.now() < checkIn.graceWindowEnd`. */
  predicate IsAlertActive(checkIn: Option<Store.CheckInState>, now: int) {
    Store.GraceWindowSet(checkIn) && now < checkIn.value.graceWindowEnd.value
  }

  /** What the countdown effect sets up: no countdown (`null`), a countdown
      held at 0 while the alert runs, or a running countdown with its first
      value. */
  datatype Countdown = Stopped | Frozen | Running(initial: nat)

  /** The countdown effect for the current check-in at `now`. */
  function CountdownEffect(checkIn: Option<Store.CheckInState>, now: int): (c: Countdown)
    ensures c.Stopped? <==> !(checkIn.Some? && checkIn.value.isActive)
    ensures c.Frozen? <==> checkIn.Some? && checkIn.value.isActive && IsAlertActive(checkIn, now)
    ensures c.Running? ==> c.initial >= checkIn.value.checkInTime - now
    ensures c.Running? ==> (c.initial == 0 || c.initial == checkIn.value.checkInTime - now)
  {
    if !(checkIn.Some? && checkIn.value.isActive) then Stopped
    else if IsAlertActive(checkIn, now) then Frozen
    else
      var remaining := checkIn.value.checkInTime - now;
      Running(if remaining > 0 then remaining else 0)
  }

  /** The `timeRemaining` the effect leaves. */
  function TimeRemainingOf(c: Countdown): Option<int> {
    match c
    case Stopped => None
    case Frozen => Some(0)
    case Running(initial) => Some(initial)
  }

  /** What one tick of the interval decides. */
  datatype TickResult = Shows(remaining: int) | Expires

  /** One tick at `now`: the time left while some remains, otherwise the
      check-in expires and 0 is shown. */
  function Tick(checkInTime: int, now: int): (t: TickResult)
    ensures t.Expires? <==> now >= checkInTime
    ensures t.Shows? ==> t.remaining > 0 && t.remaining + now == checkInTime
  {
    var remaining := checkInTime - now;
    if remaining <= 0 then Expires else Shows(remaining)
  }

  /** The `timeRemaining` a tick leaves: the time left, or 0 once expired. */
  function TickDisplay(checkInTime: int, now: int): (shown: int)
    ensures shown >= 0
    ensures shown > 0 <==> now < checkInTime
    ensures shown > 0 ==> shown + now == checkInTime
  {
    match Tick(checkInTime, now)
    case Shows(remaining) => remaining
    case Expires => 0
  }

  /** An expiring tick: the store raises the alert and the last known state
      becomes an expired check-in at the fix. Both happen after the location
      request returns, and each reads the clock itself: `tAlert` is the
      reading inside `triggerAlert`, `tRecord` the recorded timestamp read
      right after it. */
  function Expire(st: Store.State, rec: Escalation.Recorder, location: Option<Snapshot>,
                  tAlert: int, tRecord: int, id: string): (r: (Store.State, Escalation.Recorder))
    ensures r.0 == Store.TriggerAlert(st, tAlert, id)
    ensures var last := Escalation.GetLastKnownState(r.1);
            last.Some? && last.value == Escalation.LastKnownState(tRecord, FixOfOption(location), Escalation.StatusExpired, Escalation.CheckInState)
  {
    var last := Escalation.LastKnownState(tRecord, FixOfOption(location), Escalation.StatusExpired, Escalation.CheckInState);
    (Store.TriggerAlert(st, tAlert, id), Escalation.UpdateLastKnownState(rec, last))
  }

  /** Once a tick at `now` expires a running check-in, the alert raised at the
      later reading `tAlert` is active for the whole grace window from there,
      and the countdown is held at 0 throughout it. */
  lemma ExpiryFreezesCountdown(st: Store.State, rec: Escalation.Recorder, location: Option<Snapshot>,
                               now: int, tAlert: int, tRecord: int, id: string, later: int)
    requires st.checkIn.Some? && st.checkIn.value.isActive
    requires Tick(st.checkIn.value.checkInTime, now).Expires?
    requires now <= tAlert <= later < tAlert + Store.GRACE_WINDOW_MS
    requires tAlert + Store.GRACE_WINDOW_MS != 0
    ensures var after := Expire(st, rec, location, tAlert, tRecord, id).0;
            && IsAlertActive(after.checkIn, later)
            && CountdownEffect(after.checkIn, later) == Frozen
            && TimeRemainingOf(CountdownEffect(after.checkIn, later)) == Some(0)
  {
  }

  // ---------------------------------------------------------------------------
  // Alert texts

  /** The texts sent when the alert becomes active: with text messages
      enabled and at least one trusted contact, every trusted contact in order
      and then the user's own number, when set, get the missed-check-in
      message; otherwise nothing is sent. `timestamp` is the locale text of
      the current time. */
  function AlertSends(alertActive: bool, smsEnabled: bool, contacts: seq<Store.Contact>, userPhone: Option<string>,
                      timestamp: string): (sends: seq<Escalation.Send>)
    ensures !(alertActive && smsEnabled && |contacts| > 0) ==> sends == []
    ensures alertActive && smsEnabled && |contacts| > 0 ==>
              && |sends| == |contacts| + (if Truthy(userPhone) then 1 else 0)
              && (forall k :: 0 <= k < |contacts| ==> sends[k].to == contacts[k].phone)
              && (Truthy(userPhone) ==> sends[|contacts|].to == userPhone.value)
    ensures forall k :: 0 <= k < |sends| ==>
              sends[k].message == Sms.GenerateAlertMessage(Sms.CheckInMissed, None, None, timestamp)
  {
    if !(alertActive && smsEnabled && |contacts| > 0) then []
    else ContactsThenSelf(contacts, userPhone, Sms.GenerateAlertMessage(Sms.CheckInMissed, None, None, timestamp))
  }

  /** One send of `message` to each trusted contact in order, then to the
      user's own number when set. */
  function ContactsThenSelf(contacts: seq<Store.Contact>, userPhone: Option<string>, message: string): (sends: seq<Escalation.Send>)
    ensures |sends| == |contacts| + (if Truthy(userPhone) then 1 else 0)
    ensures forall k :: 0 <= k < |contacts| ==> sends[k].to == contacts[k].phone
    ensures Truthy(userPhone) ==> sends[|contacts|].to == userPhone.value
    ensures forall k :: 0 <= k < |sends| ==> sends[k].message == message
  {
    var recipients := Escalation.Recipients(contacts, userPhone);
    assert forall k :: 0 <= k < |contacts| ==> recipients[k] == recipients[..|contacts|][k];
    Escalation.SendToEach(recipients, message)
  }

  /** Unlike the phone-off escalation, the hook texts nobody when there are no
      trusted contacts, even when the user's own number is set. */
  lemma NoContactsNoTexts(smsEnabled: bool, userPhone: Option<string>, timestamp: string, userName: Option<string>,
                          last: Option<Escalation.LastKnownState>, device: Option<Snapshot>, now: int,
                          localeText: int -> string)
    requires Truthy(userPhone)
    ensures AlertSends(true, smsEnabled, [], userPhone, timestamp) == []
    ensures |Escalation.EscalateViaSMS([], userPhone, userName, last, device, now, localeText, [Escalation.Rejected]).sends| == 1
  {
  }
}
