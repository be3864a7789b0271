/** Text-message alerts (lib/services/sms.ts): the alert templates and the
    decision flow of a send, first through the relay service and then, when
    the Twilio credentials are in the environment, directly. The HTTP calls
    are outside the model; each arrives as the reply it produced. */
module Sms {
  import opened Wrappers
  import opened Text
  import opened Location

  /** The three alert kinds a message can announce: `'panic'`,
      `'check_in_missed'` and `'alert'`. */
  datatype AlertKind = PanicAlert | CheckInMissed | GeneralAlert

  const SIGNATURE := "- AlivePing Safety System"

  /** The first words of a text-message alert. */
  function Title(kind: AlertKind): string {
    match kind
    case PanicAlert => "🚨 PANIC ALERT"
    case CheckInMissed => "⚠️ MISSED CHECK-IN"
    case GeneralAlert => "⚠️ SAFETY ALERT"
  }

  /** The request to the recipient that follows the location line. */
  function Appeal(kind: AlertKind): string {
    match kind
    case PanicAlert => "This is an emergency. Please check on them immediately."
    case CheckInMissed => "They did not confirm their safety check-in. Please check on them."
    case GeneralAlert => "A safety alert has been triggered. Please check on them."
  }

  /** `userName || 'User'`. */
  function DisplayName(userName: Option<string>): string {
    OrElse(userName, "User")
  }

  /** The location line: coordinates to four decimals, or `Unknown`. */
  function LocationLine(location: Option<Point>): string {
    if location.None? then "Location: Unknown"
    else "Location: " + location.value.latitude.fixed4 + ", " + location.value.longitude.fixed4
  }

  /** `"<title> from <name>"`. */
  function Opening(kind: AlertKind, userName: Option<string>): string {
    Title(kind) + " from " + DisplayName(userName)
  }

  /** Everything before the location line. */
  function Heading(kind: AlertKind, userName: Option<string>, timestamp: string): (h: string)
    ensures StartsWith(h, Opening(kind, userName))
  {
    StartsWithConcat(Opening(kind, userName), "\n\nTime: " + timestamp + "\n");
    Opening(kind, userName) + ("\n\nTime: " + timestamp + "\n")
  }

  /** Everything after the location line. */
  function Closing(kind: AlertKind): (c: string)
    ensures EndsWith(c, SIGNATURE)
  {
    EndsWithConcat("\n\n" + Appeal(kind) + "\n\n", SIGNATURE);
    "\n\n" + Appeal(kind) + "\n\n" + SIGNATURE
  }

  /** `generateAlertMessage`. `timestamp` is the locale text of the current
      time. The message opens with the kind's title and the sender's name,
      shows the location line right after the time line, and always ends
      with the signature. */
  function GenerateAlertMessage(kind: AlertKind, location: Option<Point>, userName: Option<string>, timestamp: string): (r: string)
    ensures StartsWith(r, Opening(kind, userName))
    ensures OccursAt(r, |Heading(kind, userName, timestamp)|, LocationLine(location))
    ensures EndsWith(r, SIGNATURE)
  {
    var head := Heading(kind, userName, timestamp);
    var line := LocationLine(location);
    var tail := Closing(kind);
    Framed(head, line, tail);
    StartsWithTrans(head + (line + tail), head, Opening(kind, userName));
    EndsWithTrans(head + (line + tail), tail, SIGNATURE);
    head + (line + tail)
  }

  /** A line framed by a head and a tail sits right after the head. */
  lemma Framed(head: string, line: string, tail: string)
    ensures var r := head + (line + tail);
            && StartsWith(r, head) && EndsWith(r, tail)
            && OccursAt(r, |head|, line)
  {
    var r := head + (line + tail);
    StartsWithConcat(head, line + tail);
    assert r[|head|..] == line + tail;
    assert r[|r| - |tail|..] == tail;
    assert r[|head|..|head| + |line|] == (line + tail)[..|line|];
  }

  /** Reads the alert kind back from the start of a message. */
  function KindOfMessage(msg: string): Option<AlertKind> {
    if StartsWith(msg, Title(PanicAlert) + " from ") then Some(PanicAlert)
    else if StartsWith(msg, Title(CheckInMissed) + " from ") then Some(CheckInMissed)
    else if StartsWith(msg, Title(GeneralAlert) + " from ") then Some(GeneralAlert)
    else None
  }

  /** The kind of every generated message can be read back from it, so the
      three templates never produce the same text. */
  lemma KindOfGeneratedMessage(kind: AlertKind, location: Option<Point>, userName: Option<string>, timestamp: string)
    ensures var k := KindOfMessage(GenerateAlertMessage(kind, location, userName, timestamp));
            k.Some? && k.value == kind
  {
    var msg := GenerateAlertMessage(kind, location, userName, timestamp);
    StartsWithConcat(Title(kind) + " from ", DisplayName(userName));
    StartsWithTrans(msg, Opening(kind, userName), Title(kind) + " from ");
    KindOfTitled(msg, kind);
  }

  lemma KindOfTitled(msg: string, kind: AlertKind)
    requires StartsWith(msg, Title(kind) + " from ")
    ensures KindOfMessage(msg).Some? && KindOfMessage(msg).value == kind
  {
    var p := Title(kind) + " from ";
    if kind != PanicAlert {
      var panic := Title(PanicAlert) + " from ";
      assert p[0] == '⚠' && panic[0] == '🚨';
      PrefixesDiffer(msg, p, panic, 0);
    }
    if kind == GeneralAlert {
      var missed := Title(CheckInMissed) + " from ";
      assert p[3] == 'S' && missed[3] == 'M';
      PrefixesDiffer(msg, p, missed, 3);
    }
  }

  // ---------------------------------------------------------------------------
  // Sending

  /** `smsConfig`, set by `initializeSMS`. */
  datatype SmsConfig = SmsConfig(accountSid: string, authToken: string, fromNumber: string)

  /** The Twilio variables of the environment. */
  datatype SmsEnv = SmsEnv(sid: Option<string>, token: Option<string>, fromNumber: Option<string>)

  /** What an HTTP request came back with: an ok response, another response,
      or a thrown error. */
  datatype Reply = Delivered | Refused | Unreachable

  /** The direct request to Twilio: credentials, sender, recipient and text. */
  datatype DirectRequest = DirectRequest(accountSid: string, authToken: string, fromNumber: string, to: string, body: string)

  /** What a send did: its result, whether the relay was asked, and the
      direct request it made if any. */
  datatype SmsReport = SmsReport(sent: bool, relayCalled: bool, direct: Option<DirectRequest>)

  /** `sendSMSDirect`: without a configuration nothing is sent; otherwise each
      credential comes from the environment when set there and from the
      configuration otherwise, and only an ok reply counts. */
  function SendSMSDirect(config: Option<SmsConfig>, env: SmsEnv, to: string, message: string, reply: Reply): (r: (bool, Option<DirectRequest>))
    ensures r.1.Some? <==> config.Some?
    ensures r.0 <==> config.Some? && reply.Delivered?
    ensures r.1.Some? ==> r.1.value.to == to && r.1.value.body == message
    ensures r.1.Some? ==> r.1.value.accountSid == if Truthy(env.sid) then env.sid.value else config.value.accountSid
    ensures r.1.Some? ==> r.1.value.authToken == if Truthy(env.token) then env.token.value else config.value.authToken
    ensures r.1.Some? ==> r.1.value.fromNumber == if Truthy(env.fromNumber) then env.fromNumber.value else config.value.fromNumber
  {
    if config.None? then (false, None)
    else
      var c := config.value;
      var request := DirectRequest(OrElse(env.sid, c.accountSid), OrElse(env.token, c.authToken),
                                   OrElse(env.fromNumber, c.fromNumber), to, message);
      (reply.Delivered?, Some(request))
  }

  /** `sendSMS`: unconfigured means false with no request at all; an ok
      relay reply means true; after a failed relay the direct route is
      taken only when both Twilio credentials are in the environment. */
  function SendSMS(config: Option<SmsConfig>, env: SmsEnv, to: string, message: string, relay: Reply, direct: Reply): (r: SmsReport)
    ensures config.None? ==> !r.sent && !r.relayCalled && r.direct.None?
    ensures config.Some? ==> r.relayCalled
    ensures r.direct.Some? <==> config.Some? && !relay.Delivered? && Truthy(env.sid) && Truthy(env.token)
    ensures r.sent <==> config.Some? && (relay.Delivered? || (Truthy(env.sid) && Truthy(env.token) && direct.Delivered?))
  {
    if config.None? then SmsReport(false, false, None)
    else if relay.Delivered? then SmsReport(true, true, None)
    else if Truthy(env.sid) && Truthy(env.token) then
      var (ok, request) := SendSMSDirect(config, env, to, message, direct);
      SmsReport(ok, true, request)
    else SmsReport(false, true, None)
  }
}
