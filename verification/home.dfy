/** The home screen (app/flows/home.tsx): the scanner that starts scheduled
    check-ins, the label shown for the ledger session, and the panic button.
    The wall clock, the ledger read, the location fix, the store's panic
    event, the WhatsApp configuration and the network reply arrive as
    parameters. */
module Home {
  import opened Wrappers
  import opened Bytes
  import opened Location
  import opened Schedule
  import Ledger
  import WhatsApp
  import Escalation
  import Sms
  import CheckInHook

  // ---------------------------------------------------------------------------
  // checkScheduledCheckIns

  /** The scanner's `lastTriggeredMinute` before its first firing. */
  const FRESH_MINUTE := -1

  /** The scanner is installed only while no check-in is active and no call
      is processing; a reinstalled scanner starts from `FRESH_MINUTE`. */
  function InstallScanner(checkInActive: bool, isProcessing: bool): (last: Option<int>)
    ensures last.Some? <==> !checkInActive && !isProcessing
    ensures last.Some? ==> last.value < 0
  {
    if checkInActive || isProcessing then None else Some(FRESH_MINUTE)
  }

  /** The schedule's time reads as the given hour and minute. */
  predicate TimeIs(time: string, hour: int, minute: int) {
    var hm := ParseClockTime(time);
    hm.Some? && hm.value.0 == hour && hm.value.1 == minute
  }

  /** A schedule set for this weekday and this hour and minute. */
  predicate MatchesNow(sc: ScheduledCheckIn, clock: Clock) {
    clock.day in sc.days && TimeIs(sc.time, clock.hour, clock.minute)
  }

  /** A schedule that should start a check-in now: active and matching. */
  predicate Due(sc: ScheduledCheckIn, clock: Clock) {
    sc.isActive && MatchesNow(sc, clock)
  }

  /** `scheduledCheckIns.filter(s => s.isActive)`. */
  function ActiveOnly(s: seq<ScheduledCheckIn>): (r: seq<ScheduledCheckIn>)
    ensures |r| <= |s|
    ensures forall k :: 0 <= k < |r| ==> r[k].isActive && r[k] in s
    ensures forall x :: x in r <==> x in s && x.isActive
  {
    if s == [] then []
    else if s[0].isActive then [s[0]] + ActiveOnly(s[1..])
    else ActiveOnly(s[1..])
  }

  /** The `for` loop over the active schedules: skip a schedule whose days
      leave out today, then fire the first whose time reads as the current
      hour and minute, unless the last firing was in that minute. */
  function Pick(last: int, active: seq<ScheduledCheckIn>, clock: Clock): (r: Option<ScheduledCheckIn>)
    ensures r.Some? ==> r.value in active && MatchesNow(r.value, clock) && last != clock.minute
  {
    if active == [] then None
    else if clock.day !in active[0].days then Pick(last, active[1..], clock)
    else
      var hm := ParseClockTime(active[0].time);
      if hm.Some? && hm.value.0 == clock.hour && hm.value.1 == clock.minute && last != hm.value.1 then
        Some(active[0])
      else Pick(last, active[1..], clock)
  }

  /** One run of the scanner: the schedule it starts a check-in for, if any,
      and the new `lastTriggeredMinute`. */
  datatype Tick = Tick(fired: Option<ScheduledCheckIn>, last: int)

  /** `checkScheduledCheckIns` at `clock`, after the firing minute `last`.
      Past the fifth second of a minute nothing happens. A firing records
      the current minute and ends the loop. */
  function ScanTick(last: int, schedules: seq<ScheduledCheckIn>, clock: Clock): (t: Tick)
    ensures clock.second > 5 ==> t == Tick(None, last)
    ensures t.fired.Some? ==> && t.fired.value in schedules && Due(t.fired.value, clock)
                              && last != clock.minute && t.last == clock.minute
    ensures t.fired.None? ==> t.last == last
  {
    if clock.second > 5 then Tick(None, last)
    else
      var fired := Pick(last, ActiveOnly(schedules), clock);
      if fired.Some? then Tick(fired, clock.minute) else Tick(None, last)
  }

  /** The first due schedule in list order: an independent statement of
      which schedule should fire. */
  function FirstDue(s: seq<ScheduledCheckIn>, clock: Clock): (r: Option<nat>)
    ensures r.Some? ==> r.value < |s|
  {
    FirstWhere(s, sc => Due(sc, clock))
  }

  /** The index of the first schedule meeting `p`. */
  function FirstWhere(s: seq<ScheduledCheckIn>, p: ScheduledCheckIn -> bool): (r: Option<nat>)
    ensures r.Some? ==> r.value < |s|
  {
    if s == [] then None
    else if p(s[0]) then Some(0)
    else
      var rest := FirstWhere(s[1..], p);
      if rest.Some? then Some(rest.value + 1) else None
  }

  lemma {:induction false} FirstWhereIsFirst(s: seq<ScheduledCheckIn>, p: ScheduledCheckIn -> bool)
    ensures var r := FirstWhere(s, p);
            && (r.Some? ==> p(s[r.value]) && forall j :: 0 <= j < r.value ==> !p(s[j]))
            && (r.None? ==> forall j :: 0 <= j < |s| ==> !p(s[j]))
  {
    if s != [] && !p(s[0]) {
      FirstWhereIsFirst(s[1..], p);
      assert forall j :: 1 <= j < |s| ==> s[j] == s[1..][j - 1];
    }
  }

  /** `FirstDue` names a due schedule with none due before it, and names
      none only when no schedule is due. */
  lemma FirstDueIsFirst(s: seq<ScheduledCheckIn>, clock: Clock)
    ensures var r := FirstDue(s, clock);
            && (r.Some? ==> Due(s[r.value], clock) && forall j :: 0 <= j < r.value ==> !Due(s[j], clock))
            && (r.None? ==> forall j :: 0 <= j < |s| ==> !Due(s[j], clock))
  {
    FirstWhereIsFirst(s, sc => Due(sc, clock));
  }

  /** Within the first five seconds of a minute the scanner fires the first
      due schedule in list order, unless it already fired in this minute;
      then it fires nothing. At most one check-in starts per run. */
  lemma {:induction false} ScanFiresFirstDue(last: int, s: seq<ScheduledCheckIn>, clock: Clock)
    requires clock.second <= 5
    ensures var t := ScanTick(last, s, clock);
            var i := FirstDue(s, clock);
            && (last == clock.minute ==> t.fired.None?)
            && (last != clock.minute ==> (t.fired.Some? <==> i.Some?) && (i.Some? ==> t.fired.value == s[i.value]))
  {
    PickFirstDue(last, s, clock);
  }

  lemma {:induction false} PickFirstDue(last: int, s: seq<ScheduledCheckIn>, clock: Clock)
    ensures var p := Pick(last, ActiveOnly(s), clock);
            var i := FirstDue(s, clock);
            && (last == clock.minute ==> p.None?)
            && (last != clock.minute ==> (p.Some? <==> i.Some?) && (i.Some? ==> p.value == s[i.value]))
    decreases |s|
  {
    if s != [] {
      PickFirstDue(last, s[1..], clock);
      FirstDueStep(s, clock);
      var rest := FirstDue(s[1..], clock);
      if rest.Some? {
        assert s[1..][rest.value] == s[rest.value + 1];
      }
      if s[0].isActive {
        var a := ActiveOnly(s);
        assert a[0] == s[0] && a[1..] == ActiveOnly(s[1..]);
        PickStep(last, a, clock);
      }
    }
  }

  lemma FirstDueStep(s: seq<ScheduledCheckIn>, clock: Clock)
    requires s != []
    ensures var rest := FirstDue(s[1..], clock);
            FirstDue(s, clock) == if Due(s[0], clock) then Some(0) else if rest.Some? then Some(rest.value + 1) else None
  {
  }

  lemma PickStep(last: int, active: seq<ScheduledCheckIn>, clock: Clock)
    requires active != []
    ensures Pick(last, active, clock)
         == if MatchesNow(active[0], clock) && last != clock.minute then Some(active[0]) else Pick(last, active[1..], clock)
  {
  }

  /** After a firing, later runs of the same scanner in the same minute
      fire nothing. */
  lemma NoRefireInSameMinute(last: int, s: seq<ScheduledCheckIn>, clock: Clock, later: Clock)
    requires later.minute == clock.minute
    ensures ScanTick(last, s, clock).fired.Some? ==> ScanTick(ScanTick(last, s, clock).last, s, later).fired.None?
  {
  }

  /** A freshly installed scanner, run within the first five seconds of a
      minute on a valid clock, fires exactly when some schedule is due. */
  lemma FreshScannerFires(checkInActive: bool, isProcessing: bool, s: seq<ScheduledCheckIn>, clock: Clock)
    requires ValidClock(clock) && clock.second <= 5
    requires InstallScanner(checkInActive, isProcessing).Some?
    ensures var t := ScanTick(InstallScanner(checkInActive, isProcessing).value, s, clock);
            t.fired.Some? <==> exists k :: 0 <= k < |s| && Due(s[k], clock)
  {
    var last := InstallScanner(checkInActive, isProcessing).value;
    ScanFiresFirstDue(last, s, clock);
    FirstDueIsFirst(s, clock);
    var i := FirstDue(s, clock);
    if i.Some? {
      assert Due(s[i.value], clock);
    }
  }

  // ---------------------------------------------------------------------------
  // checkOnChainStatus

  /** What reading the ledger session came to: a thrown error, no account,
      or the account with its stored status code. */
  datatype SessionRead = ReadFailed | NoSession | Found(status: Byte)

  /** The label of each status. */
  function StatusName(s: Ledger.Status): string {
    match s
    case Active => "Active"
    case Confirmed => "Confirmed"
    case Expired => "Expired"
    case Panic => "Panic"
    case Closed => "Closed"
  }

  /** `statuses[session.status] || 'Unknown'`. */
  function CodeLabel(code: Byte): string {
    var statuses := ["Active", "Confirmed", "Expired", "Panic", "Closed"];
    if code < |statuses| then statuses[code] else "Unknown"
  }

  /** `checkOnChainStatus`: the status label of the session, `Not on-chain`
      without one, and nothing (`null`) when the read throws. */
  function OnChainStatus(read: SessionRead): (shown: Option<string>)
    ensures shown.None? <==> read.ReadFailed?
    ensures read.NoSession? ==> shown == Some("Not on-chain")
    ensures read.Found? ==> shown.Some? && shown.value != "Not on-chain"
  {
    match read
    case ReadFailed => None
    case NoSession => Some("Not on-chain")
    case Found(code) => Some(CodeLabel(code))
  }

  /** A session's label names the status its code stands for in the ledger,
      and a code that names no status is shown as `Unknown`. */
  lemma OnChainStatusNamesLedgerStatus(code: Byte)
    ensures var shown := OnChainStatus(Found(code));
            var status := Ledger.StatusOfCode(code);
            && (status.Some? ==> shown == Some(StatusName(status.value)))
            && (status.None? ==> shown == Some("Unknown"))
  {
  }

  /** Every status is shown under its own name. */
  lemma EveryStatusLabelled(s: Ledger.Status)
    ensures OnChainStatus(Found(s.Code())) == Some(StatusName(s))
  {
    OnChainStatusNamesLedgerStatus(s.Code());
    Ledger.StatusCodeRoundTrip(s);
  }

  // ---------------------------------------------------------------------------
  // handlePanic

  /** The WhatsApp side of the environment: platform, the alert numbers of
      the two platforms, the API credentials and the reply to the request. */
  datatype WhatsAppEnv = WhatsAppEnv(platform: WhatsApp.Platform, iosPhone: Option<string>, androidPhone: Option<string>,
                                     token: Option<string>, phoneNumberId: Option<string>, http: WhatsApp.HttpOutcome)

  /** How the generated alert reaches `sendWhatsApp`: as the `message` field
      (what the screen does) or as the `alertParams` field. */
  datatype Shape = AsMessage | AsAlertParams

  function PanicOptions(shape: Shape, to: string, p: WhatsApp.AlertParams): WhatsApp.Options {
    match shape
    case AsMessage => WhatsApp.Message(to, WhatsApp.ParamsObject(p))
    case AsAlertParams => WhatsApp.WithAlertParams(to, p)
  }

  /** What the panic handler did: the last known state it left, the
      WhatsApp flag written to the panic event (event id and sent flag), the
      WhatsApp request made, and the hash submitted with the ledger's panic
      instruction. A thrown `getAlertPhoneNumber` ends the handler before the
      ledger call. */
  datatype PanicReport = PanicReport(recorder: Escalation.Recorder, whatsAppFlag: Option<(string, bool)>,
                                     request: Option<WhatsApp.Request>, ledgerHash: Option<seq<Byte>>)

  /** `notificationPreferences?.whatsappEnabled ?? true`. */
  function WhatsAppEnabled(preference: Option<bool>): bool {
    preference.GetOr(true)
  }

  /** The panic state recorded for the phone-off fallback. */
  function PanicState(location: Option<Snapshot>, now: int): Escalation.LastKnownState {
    Escalation.LastKnownState(now, CheckInHook.FixOfOption(location), Escalation.StatusActive, Escalation.PanicState)
  }

  /** The panic alert generated for WhatsApp: no user name, the fix's
      coordinates and the battery information when there is some. */
  function PanicAlert(location: Option<Snapshot>, battery: Option<WhatsApp.Battery>, timestamp: string): WhatsApp.AlertParams {
    var point := if location.Some? then Some(PointOfSnapshot(location.value)) else None;
    WhatsApp.GenerateAlertMessage(Sms.PanicAlert, point, None, battery, timestamp)
  }

  /** `handlePanic` with the alert passed in the given shape. The store's
      `triggerPanic` returned `panicEvent` (the event id, or nothing); the
      last known state becomes an active panic at the fix; WhatsApp is tried
      when enabled and there is an event, and its result, a rejection
      counting as `false`, is written to the event; then the ledger's panic
      instruction is sent with the location hash, 32 zero bytes without a
      fix, its failure ignored. */
  function PanicWith(shape: Shape, location: Option<Snapshot>, panicEvent: Option<string>, preference: Option<bool>,
                     battery: Option<WhatsApp.Battery>, timestamp: string, env: WhatsAppEnv,
                     sha256: Digests, now: int, rec: Escalation.Recorder): (r: PanicReport)
    ensures Escalation.GetLastKnownState(r.recorder) == Some(PanicState(location, now))
    ensures var tried := WhatsAppEnabled(preference) && panicEvent.Some?;
            var phone := WhatsApp.GetAlertPhoneNumber(env.platform, env.iosPhone, env.androidPhone);
            && (r.whatsAppFlag.Some? <==> tried && phone.Ok?)
            && (r.ledgerHash.None? <==> tried && phone.Err?)
            && (r.request.Some? ==> r.whatsAppFlag.Some?)
            && (r.whatsAppFlag.Some? ==>
                  var report := WhatsApp.SendWhatsApp(PanicOptions(shape, phone.value, PanicAlert(location, battery, timestamp)),
                                                      env.token, env.phoneNumberId, env.http);
                  && r.whatsAppFlag.value == (panicEvent.value, report.sent)
                  && r.request == report.request)
    ensures r.ledgerHash.Some? ==> r.ledgerHash.value == ContextHash(location, sha256)
    ensures r.ledgerHash.Some? && location.None? ==> r.ledgerHash.value == ZERO_32
  {
    var recorder := Escalation.UpdateLastKnownState(rec, PanicState(location, now));
    var hash := ContextHash(location, sha256);
    if WhatsAppEnabled(preference) && panicEvent.Some? then
      var phone := WhatsApp.GetAlertPhoneNumber(env.platform, env.iosPhone, env.androidPhone);
      if phone.Err? then PanicReport(recorder, None, None, None)
      else
        var report := WhatsApp.SendWhatsApp(PanicOptions(shape, phone.value, PanicAlert(location, battery, timestamp)),
                                            env.token, env.phoneNumberId, env.http);
        PanicReport(recorder, Some((panicEvent.value, report.sent)), report.request, Some(hash))
    else PanicReport(recorder, None, None, Some(hash))
  }

  /** `handlePanic` as written: the generated alert object goes in the
      `message` field. */
  function HandlePanic(location: Option<Snapshot>, panicEvent: Option<string>, preference: Option<bool>,
                       battery: Option<WhatsApp.Battery>, timestamp: string, env: WhatsAppEnv,
                       sha256: Digests, now: int, rec: Escalation.Recorder): (r: PanicReport)
    ensures r.whatsAppFlag.Some? ==> !r.whatsAppFlag.value.1
    ensures r.request.None?
  {
    PanicWith(AsMessage, location, panicEvent, preference, battery, timestamp, env, sha256, now, rec)
  }

  /** `handlePanic` with the alert passed as `alertParams`, as the WhatsApp
      service expects it. */
  function HandlePanicCorrected(location: Option<Snapshot>, panicEvent: Option<string>, preference: Option<bool>,
                                battery: Option<WhatsApp.Battery>, timestamp: string, env: WhatsAppEnv,
                                sha256: Digests, now: int, rec: Escalation.Recorder): (r: PanicReport)
    ensures Escalation.GetLastKnownState(r.recorder) == Some(PanicState(location, now))
    ensures var tried := WhatsAppEnabled(preference) && panicEvent.Some?;
            var phone := WhatsApp.GetAlertPhoneNumber(env.platform, env.iosPhone, env.androidPhone);
            && (r.whatsAppFlag.Some? <==> tried && phone.Ok?)
            && (r.ledgerHash.None? <==> tried && phone.Err?)
            && (r.whatsAppFlag.Some? ==>
                  var reachable := Text.Truthy(env.token) && |WhatsApp.FormatPhoneNumber(phone.value)| >= 10;
                  && r.whatsAppFlag.value.0 == panicEvent.value
                  && (r.whatsAppFlag.value.1 <==> reachable && WhatsApp.Accepted(env.http))
                  && (r.request.Some? <==> reachable)
                  && (r.request.Some? ==>
                        && r.request.value.to == WhatsApp.FormatPhoneNumber(phone.value)
                        && r.request.value.body == WhatsApp.Truncate(WhatsApp.RenderAlert(PanicAlert(location, battery, timestamp)))))
            && (r.request.Some? ==> r.whatsAppFlag.Some?)
    ensures r.ledgerHash.Some? ==> r.ledgerHash.value == ContextHash(location, sha256)
  {
    PanicWith(AsAlertParams, location, panicEvent, preference, battery, timestamp, env, sha256, now, rec)
  }

  /** As written, no panic is ever reported delivered over WhatsApp, even
      with a configured service that accepts the message: the event's flag
      is written `false` whenever it is written at all. */
  lemma PanicWhatsAppNeverDelivered(location: Option<Snapshot>, panicEvent: Option<string>, battery: Option<WhatsApp.Battery>,
                                    timestamp: string, env: WhatsAppEnv, sha256: Digests, now: int, rec: Escalation.Recorder)
    requires panicEvent.Some?
    requires WhatsApp.GetAlertPhoneNumber(env.platform, env.iosPhone, env.androidPhone).Ok?
    ensures var r := HandlePanic(location, panicEvent, None, battery, timestamp, env, sha256, now, rec);
            r.whatsAppFlag == Some((panicEvent.value, false)) && r.request.None?
  {
  }

  /** With the alert passed as `alertParams`, a configured service that
      accepts the message marks the panic event as sent, with the rendered
      alert as the request body. */
  lemma CorrectedPanicDelivered(location: Option<Snapshot>, panicEvent: Option<string>, battery: Option<WhatsApp.Battery>,
                                timestamp: string, env: WhatsAppEnv, sha256: Digests, now: int, rec: Escalation.Recorder)
    requires panicEvent.Some?
    requires var phone := WhatsApp.GetAlertPhoneNumber(env.platform, env.iosPhone, env.androidPhone);
             phone.Ok? && |WhatsApp.FormatPhoneNumber(phone.value)| >= 10
    requires Text.Truthy(env.token) && WhatsApp.Accepted(env.http)
    requires |WhatsApp.RenderAlert(PanicAlert(location, battery, timestamp))| <= 4096
    ensures var r := HandlePanicCorrected(location, panicEvent, None, battery, timestamp, env, sha256, now, rec);
            && r.whatsAppFlag == Some((panicEvent.value, true))
            && r.request.Some? && r.request.value.body == WhatsApp.RenderAlert(PanicAlert(location, battery, timestamp))
  {
    var phone := WhatsApp.GetAlertPhoneNumber(env.platform, env.iosPhone, env.androidPhone).value;
    WhatsApp.AlertParamsSent(phone, PanicAlert(location, battery, timestamp), env.token, env.phoneNumberId, env.http);
  }

  /** Without a configured alert number the WhatsApp attempt throws and the
      ledger never receives the panic, while with WhatsApp disabled the
      ledger receives it whatever the configuration. */
  lemma MissingAlertNumberSkipsLedger(location: Option<Snapshot>, panicEvent: Option<string>, preference: Option<bool>,
                                      battery: Option<WhatsApp.Battery>, timestamp: string, env: WhatsAppEnv,
                                      sha256: Digests, now: int, rec: Escalation.Recorder)
    ensures var r := HandlePanic(location, panicEvent, preference, battery, timestamp, env, sha256, now, rec);
            && (preference == Some(false) ==> r.ledgerHash == Some(ContextHash(location, sha256)))
            && ((panicEvent.Some? && preference != Some(false)
                 && WhatsApp.GetAlertPhoneNumber(env.platform, env.iosPhone, env.androidPhone).Err?) ==> r.ledgerHash.None?)
  {
  }
}
