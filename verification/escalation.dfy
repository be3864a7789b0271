/** The phone-off fallback (lib/services/phoneOffFallback.ts): the device
    records its last known state after each transition, and a server-side
    escalation texts every trusted contact, and the user's own number, when
    the device cannot be reached. Each send's outcome is an oracle value. */
module Escalation {
  import opened Wrappers
  import opened Text
  import opened Location
  import Store
  import Sms

  datatype CheckInStatus = StatusActive | StatusExpired | StatusConfirmed

  /** The `eventType` of a recorded state: `'check_in'`, `'panic'` or `'alert'`. */
  datatype StateEvent = CheckInState | PanicState | AlertState

  datatype LastKnownState = LastKnownState(timestamp: int, location: Option<Fix>, checkInStatus: CheckInStatus, eventType: StateEvent)

  /** The module-level `lastKnownState` variable. */
  datatype Recorder = Recorder(last: Option<LastKnownState>)

  /** The variable before the first write. */
  const FRESH := Recorder(None)

  /** `updateLastKnownState`: the new state replaces whatever was recorded. */
  function UpdateLastKnownState(rec: Recorder, s: LastKnownState): (r: Recorder)
    ensures GetLastKnownState(r).Some? && GetLastKnownState(r).value == s
  {
    Recorder(Some(s))
  }

  /** `getLastKnownState`. */
  function GetLastKnownState(rec: Recorder): Option<LastKnownState> {
    rec.last
  }

  /** A series of writes, oldest first. */
  function RecordAll(rec: Recorder, writes: seq<LastKnownState>): Recorder
    decreases |writes|
  {
    if writes == [] then rec else RecordAll(UpdateLastKnownState(rec, writes[0]), writes[1..])
  }

  /** Reading after a series of writes gives the last value written, and
      `null` when nothing was ever written. */
  lemma {:induction false} GetReturnsLastWrite(writes: seq<LastKnownState>)
    ensures var got := GetLastKnownState(RecordAll(FRESH, writes));
            && (writes == [] ==> got.None?)
            && (writes != [] ==> got.Some? && got.value == writes[|writes| - 1])
  {
    if writes != [] {
      LastWriteWins(UpdateLastKnownState(FRESH, writes[0]), writes[1..], writes[0]);
    }
  }

  lemma {:induction false} LastWriteWins(rec: Recorder, writes: seq<LastKnownState>, s: LastKnownState)
    requires rec.last == Some(s)
    ensures var got := GetLastKnownState(RecordAll(rec, writes));
            got.Some? && got.value == if writes == [] then s else writes[|writes| - 1]
    decreases |writes|
  {
    if writes != [] {
      LastWriteWins(UpdateLastKnownState(rec, writes[0]), writes[1..], writes[0]);
      assert writes[1..] != [] ==> writes[1..][|writes[1..]| - 1] == writes[|writes| - 1];
    }
  }

  // ---------------------------------------------------------------------------
  // Recipients

  /** The contact standing for the user's own phone. */
  function SelfContact(phone: string): Store.Contact {
    Store.Contact("self", "Self", phone, false)
  }

  /** The trusted contacts in order, then the user's own number when set. */
  function Recipients(contacts: seq<Store.Contact>, userPhone: Option<string>): (r: seq<Store.Contact>)
    ensures |r| == |contacts| + (if Truthy(userPhone) then 1 else 0)
    ensures r[..|contacts|] == contacts
    ensures Truthy(userPhone) ==> r[|contacts|] == SelfContact(userPhone.value)
  {
    if Truthy(userPhone) then contacts + [SelfContact(userPhone.value)] else contacts
  }

  // ---------------------------------------------------------------------------
  // escalateViaSMS

  /** The alert kind of an escalation: panic when the last recorded event was
      a panic, a missed check-in when the recorded check-in had expired, a
      general alert otherwise, also when nothing was recorded. */
  function EscalationKind(last: Option<LastKnownState>): (k: Sms.AlertKind)
    ensures k.PanicAlert? <==> last.Some? && last.value.eventType.PanicState?
    ensures k.CheckInMissed? <==> last.Some? && !last.value.eventType.PanicState? && last.value.checkInStatus.StatusExpired?
  {
    if last.Some? && last.value.eventType.PanicState? then Sms.PanicAlert
    else if last.Some? && last.value.checkInStatus.StatusExpired? then Sms.CheckInMissed
    else Sms.GeneralAlert
  }

  /** `lastState?.location || getLastKnownLocation()`: the recorded location,
      and only without one the device's own last-known fix. */
  function EscalationLocation(last: Option<LastKnownState>, device: Option<Snapshot>): (p: Option<Point>)
    ensures last.Some? && last.value.location.Some? ==> p == Some(PointOfFix(last.value.location.value))
    ensures !(last.Some? && last.value.location.Some?) ==> p.Some? == device.Some?
    ensures !(last.Some? && last.value.location.Some?) && device.Some? ==> p.value == PointOfSnapshot(device.value)
  {
    if last.Some? && last.value.location.Some? then Some(PointOfFix(last.value.location.value))
    else if device.Some? then Some(PointOfSnapshot(device.value))
    else None
  }

  /** `lastState?.timestamp || Date.now()`: the instant the suffix names. */
  function StampInstant(last: Option<LastKnownState>, now: int): int {
    if last.Some? && last.value.timestamp != 0 then last.value.timestamp else now
  }

  const PHONE_OFF := "\n\n⚠️ PHONE OFF: This alert was sent because the device could not be reached. Last known state: "

  /** What one send came to: resolved with its boolean, or rejected. */
  datatype SendOutcome = Resolved(ok: bool) | Rejected

  /** One text handed to `sendSMS`. */
  datatype Send = Send(to: string, message: string)

  datatype EscalationReport = EscalationReport(result: bool, sends: seq<Send>)

  /** How many sends resolved to `true`. */
  function SuccessCount(outcomes: seq<SendOutcome>): (n: nat)
    ensures n <= |outcomes|
    ensures n > 0 <==> exists k :: 0 <= k < |outcomes| && outcomes[k] == Resolved(true)
    decreases |outcomes|
  {
    if outcomes == [] then 0
    else
      var rest := SuccessCount(outcomes[1..]);
      assert forall k :: 1 <= k < |outcomes| ==> outcomes[k] == outcomes[1..][k - 1];
      (if outcomes[0] == Resolved(true) then 1 else 0) + rest
  }

  /** The escalation text: the alert message for the derived kind and
      location, followed by the phone-off notice naming the last known state's
      time. `localeText` renders an instant the way `toLocaleString` does.
      The text opens as an alert of the escalation's kind, and the alert's
      signature is followed directly by the phone-off notice naming the
      recorded time, or the current time when none was recorded. The
      location line, right after the heading, names the escalation's
      location: the recorded one, else the device's last-known fix. */
  function EscalationText(last: Option<LastKnownState>, device: Option<Snapshot>, userName: Option<string>,
                          now: int, localeText: int -> string): (r: string)
    ensures StartsWith(r, Sms.Opening(EscalationKind(last), userName))
    ensures EndsWith(r, Sms.SIGNATURE + PHONE_OFF + localeText(StampInstant(last, now)))
    ensures OccursAt(r, |Sms.Heading(EscalationKind(last), userName, localeText(now))|,
                     Sms.LocationLine(EscalationLocation(last, device)))
  {
    var alert := Sms.GenerateAlertMessage(EscalationKind(last), EscalationLocation(last, device), userName, localeText(now));
    var stamp := localeText(StampInstant(last, now));
    AppendNotice(alert, PHONE_OFF, stamp, Sms.Opening(EscalationKind(last), userName),
                 |Sms.Heading(EscalationKind(last), userName, localeText(now))|,
                 Sms.LocationLine(EscalationLocation(last, device)), Sms.SIGNATURE);
    alert + (PHONE_OFF + stamp)
  }

  /** Appending the notice keeps the alert's opening and its location line
      where they were, and puts the notice right after the signature. */
  lemma AppendNotice(alert: string, notice: string, stamp: string, opening: string, i: nat, line: string, signature: string)
    requires StartsWith(alert, opening) && OccursAt(alert, i, line) && EndsWith(alert, signature)
    ensures StartsWith(alert + (notice + stamp), opening)
    ensures OccursAt(alert + (notice + stamp), i, line)
    ensures EndsWith(alert + (notice + stamp), signature + notice + stamp)
  {
    var tail := notice + stamp;
    StartsWithConcat(alert, tail);
    StartsWithTrans(alert + tail, alert, opening);
    OccursAtExtend(alert, i, line, tail);
    EndsWithExtend(alert, signature, tail);
    assert signature + tail == signature + notice + stamp;
  }

  /** `escalateViaSMS`. With neither contacts nor a user number it sends
      nothing and yields false. Otherwise every recipient, in order, is sent
      the same escalation text, whatever became of the other sends, and the
      result is true exactly when at least one send resolved to true.
      `outcomes[k]` is what the send to recipient `k` came to. */
  function EscalateViaSMS(contacts: seq<Store.Contact>, userPhone: Option<string>, userName: Option<string>,
                          last: Option<LastKnownState>, device: Option<Snapshot>, now: int,
                          localeText: int -> string, outcomes: seq<SendOutcome>): (r: EscalationReport)
    requires |outcomes| == |Recipients(contacts, userPhone)|
    ensures contacts == [] && !Truthy(userPhone) ==> !r.result && r.sends == []
    ensures |r.sends| == |Recipients(contacts, userPhone)|
    ensures forall k :: 0 <= k < |r.sends| ==>
              && r.sends[k].to == Recipients(contacts, userPhone)[k].phone
              && r.sends[k].message == EscalationText(last, device, userName, now, localeText)
    ensures r.result <==> exists k :: 0 <= k < |outcomes| && outcomes[k] == Resolved(true)
  {
    if |contacts| == 0 && !Truthy(userPhone) then EscalationReport(false, [])
    else
      var text := EscalationText(last, device, userName, now, localeText);
      var recipients := Recipients(contacts, userPhone);
      EscalationReport(SuccessCount(outcomes) > 0, SendToEach(recipients, text))
  }

  /** One send of `text` to each recipient, in order. */
  function SendToEach(recipients: seq<Store.Contact>, text: string): (sends: seq<Send>)
    ensures |sends| == |recipients|
    ensures forall k :: 0 <= k < |sends| ==> sends[k].to == recipients[k].phone && sends[k].message == text
  {
    seq(|recipients|, k requires 0 <= k < |recipients| => Send(recipients[k].phone, text))
  }

  /** Which sends are attempted does not depend on how any of them turns out. */
  lemma SendsIgnoreOutcomes(contacts: seq<Store.Contact>, userPhone: Option<string>, userName: Option<string>,
                            last: Option<LastKnownState>, device: Option<Snapshot>, now: int,
                            localeText: int -> string, a: seq<SendOutcome>, b: seq<SendOutcome>)
    requires |a| == |b| == |Recipients(contacts, userPhone)|
    ensures EscalateViaSMS(contacts, userPhone, userName, last, device, now, localeText, a).sends
         == EscalateViaSMS(contacts, userPhone, userName, last, device, now, localeText, b).sends
  {
  }

  /** A rejected send counts as a failure and nothing more: replacing a
      rejection by a resolved `false` changes neither the sends nor the result. */
  lemma RejectionIsFailure(contacts: seq<Store.Contact>, userPhone: Option<string>, userName: Option<string>,
                           last: Option<LastKnownState>, device: Option<Snapshot>, now: int,
                           localeText: int -> string, outcomes: seq<SendOutcome>, k: nat)
    requires |outcomes| == |Recipients(contacts, userPhone)| && k < |outcomes| && outcomes[k].Rejected?
    ensures EscalateViaSMS(contacts, userPhone, userName, last, device, now, localeText, outcomes)
         == EscalateViaSMS(contacts, userPhone, userName, last, device, now, localeText, outcomes[k := Resolved(false)])
  {
    SuccessCountIgnoresRejection(outcomes, k);
  }

  lemma {:induction false} SuccessCountIgnoresRejection(outcomes: seq<SendOutcome>, k: nat)
    requires k < |outcomes| && outcomes[k].Rejected?
    ensures SuccessCount(outcomes[k := Resolved(false)]) == SuccessCount(outcomes)
    decreases |outcomes|
  {
    var changed := outcomes[k := Resolved(false)];
    if k > 0 {
      assert changed[1..] == outcomes[1..][k - 1 := Resolved(false)];
      SuccessCountIgnoresRejection(outcomes[1..], k - 1);
    } else {
      assert changed[1..] == outcomes[1..];
    }
  }
}
