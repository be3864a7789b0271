/** WhatsApp alerts (lib/services/whatsapp.ts): phone normalisation, the
    alert text, the guards in front of a send and how the Graph API's reply
    decides success. The HTTP call is outside the model; it arrives as the
    outcome it produced. */
module WhatsApp {
  import opened Wrappers
  import opened Text
  import opened Location
  import Sms

  // ---------------------------------------------------------------------------
  // formatPhoneNumber

  /** `phone.replace(/\D/g, '')`: the decimal digits of `phone`, in order. */
  function FormatPhoneNumber(phone: string): (r: string)
    ensures AllDigits(r) && |r| <= |phone|
    decreases |phone|
  {
    if phone == [] then []
    else (if IsDigit(phone[0]) then [phone[0]] else []) + FormatPhoneNumber(phone[1..])
  }

  /** Normalisation works piece by piece: together with the one-character
      case this says exactly the digits are kept, in their order. */
  lemma {:induction false} FormatPhoneAppend(a: string, b: string)
    ensures FormatPhoneNumber(a + b) == FormatPhoneNumber(a) + FormatPhoneNumber(b)
    decreases |a|
  {
    if a == [] {
      assert a + b == b;
    } else {
      assert (a + b)[1..] == a[1..] + b;
      FormatPhoneAppend(a[1..], b);
    }
  }

  lemma FormatPhoneChar(c: char)
    ensures FormatPhoneNumber([c]) == if IsDigit(c) then [c] else []
  {
    assert [c][1..] == [];
  }

  /** A string of digits is already normal. */
  lemma {:induction false} FormatPhoneOfDigits(s: string)
    requires AllDigits(s)
    ensures FormatPhoneNumber(s) == s
    decreases |s|
  {
    if s != [] {
      FormatPhoneOfDigits(s[1..]);
    }
  }

  /** Normalising twice is normalising once. */
  lemma FormatPhoneIdempotent(s: string)
    ensures FormatPhoneNumber(FormatPhoneNumber(s)) == FormatPhoneNumber(s)
  {
    FormatPhoneOfDigits(FormatPhoneNumber(s));
  }

  // ---------------------------------------------------------------------------
  // Configuration

  /** The phone-number id used when none is configured. */
  const DEFAULT_PHONE_NUMBER_ID := "948276015032580"

  datatype WhatsAppConfig = WhatsAppConfig(accessToken: string, phoneNumberId: string)

  /** `getWhatsAppConfig`: nothing without an access token; the phone-number
      id falls back to the default. */
  function GetWhatsAppConfig(token: Option<string>, phoneNumberId: Option<string>): (r: Option<WhatsAppConfig>)
    ensures r.Some? <==> Truthy(token)
    ensures r.Some? ==> r.value.accessToken == token.value
    ensures r.Some? && !Truthy(phoneNumberId) ==> r.value.phoneNumberId == DEFAULT_PHONE_NUMBER_ID
    ensures r.Some? && Truthy(phoneNumberId) ==> r.value.phoneNumberId == phoneNumberId.value
  {
    if Truthy(token) then Some(WhatsAppConfig(token.value, OrElse(phoneNumberId, DEFAULT_PHONE_NUMBER_ID))) else None
  }

  datatype Platform = IOS | OtherPlatform

  /** `getAlertPhoneNumber`: the alert number configured for the platform, or
      the error it throws when that variable is unset. */
  function GetAlertPhoneNumber(platform: Platform, iosPhone: Option<string>, androidPhone: Option<string>): (r: Result<string, string>)
    ensures platform.IOS? ==> (r.Ok? <==> Truthy(iosPhone)) && (r.Ok? ==> r.value == iosPhone.value)
    ensures platform.OtherPlatform? ==> (r.Ok? <==> Truthy(androidPhone)) && (r.Ok? ==> r.value == androidPhone.value)
  {
    if platform.IOS? then
      if Truthy(iosPhone) then Ok(iosPhone.value) else Err("EXPO_PUBLIC_WHATSAPP_ALERT_PHONE_IOS not set in .env")
    else
      if Truthy(androidPhone) then Ok(androidPhone.value) else Err("EXPO_PUBLIC_WHATSAPP_ALERT_PHONE_ANDROID not set in .env")
  }

  // ---------------------------------------------------------------------------
  // The alert text

  /** `WhatsAppAlertParams`. */
  datatype AlertParams = AlertParams(
    kind: Sms.AlertKind,
    userName: Option<string>,
    timestamp: string,
    location: Option<string>,
    locationLink: Option<string>,
    batteryInfo: Option<string>)

  /** The first line of a WhatsApp alert. */
  function Header(kind: Sms.AlertKind): string {
    match kind
    case PanicAlert => "🚨 PANIC ALERT"
    case CheckInMissed => "⏰ MISSED CHECK-IN"
    case GeneralAlert => "⚠️ SAFETY ALERT"
  }

  /** The lines of an alert: header, blank, user (default `User`), time,
      blank, location (default `Unknown`), then a map line and a battery line
      only when those are given. */
  function AlertLines(p: AlertParams): (ls: seq<string>)
    ensures |ls| == 6 + (if Truthy(p.locationLink) then 1 else 0) + (if Truthy(p.batteryInfo) then 1 else 0)
    ensures ls[0] == Header(p.kind) && ls[1] == "" && ls[4] == ""
    ensures ls[2] == "User: " + OrElse(p.userName, "User")
    ensures ls[5] == "Location: " + OrElse(p.location, "Unknown")
    ensures Truthy(p.locationLink) ==> ls[6] == "Map: " + p.locationLink.value
    ensures Truthy(p.batteryInfo) ==> ls[|ls| - 1] == "Battery: " + p.batteryInfo.value
  {
    [Header(p.kind), "", "User: " + OrElse(p.userName, "User"), "Time: " + p.timestamp, "",
     "Location: " + OrElse(p.location, "Unknown")]
    + (if Truthy(p.locationLink) then ["Map: " + p.locationLink.value] else [])
    + (if Truthy(p.batteryInfo) then ["Battery: " + p.batteryInfo.value] else [])
  }

  /** The alert text: every line followed by a line break. When no field
      holds a line break, a reader splitting the text at line breaks gets the
      lines back, with the empty remainder after the final break. */
  function RenderAlert(p: AlertParams): (r: string)
    ensures SingleLineFields(p) ==> Split(r, '\n') == AlertLines(p) + [""]
  {
    JoinedLinesSplit(p);
    Join(AlertLines(p) + [""], '\n')
  }

  /** No field of the alert holds a line break. */
  predicate SingleLineFields(p: AlertParams) {
    && '\n' !in p.timestamp
    && (p.userName.Some? ==> '\n' !in p.userName.value)
    && (p.location.Some? ==> '\n' !in p.location.value)
    && (p.locationLink.Some? ==> '\n' !in p.locationLink.value)
    && (p.batteryInfo.Some? ==> '\n' !in p.batteryInfo.value)
  }

  lemma JoinedLinesSplit(p: AlertParams)
    ensures SingleLineFields(p) ==> Split(Join(AlertLines(p) + [""], '\n'), '\n') == AlertLines(p) + [""]
  {
    if SingleLineFields(p) {
      var ls := AlertLines(p) + [""];
      forall k | 0 <= k < |ls|
        ensures '\n' !in ls[k]
      {
        if k < |ls| - 1 {
          LineFree(p, k);
        }
      }
      SplitJoin(ls, '\n');
    }
  }

  lemma LineFree(p: AlertParams, k: nat)
    requires SingleLineFields(p) && k < |AlertLines(p)|
    ensures '\n' !in AlertLines(p)[k]
  {
    var ls := AlertLines(p);
    if k == 0 {
      HeaderFree(p.kind);
    } else if k == 2 {
      LabelledFree("User: ", OrElse(p.userName, "User"));
    } else if k == 3 {
      assert ls[3] == "Time: " + p.timestamp;
      LabelledFree("Time: ", p.timestamp);
    } else if k == 5 {
      LabelledFree("Location: ", OrElse(p.location, "Unknown"));
    } else if k == 6 && Truthy(p.locationLink) {
      LabelledFree("Map: ", p.locationLink.value);
    } else if k >= 6 {
      assert k == |ls| - 1 && Truthy(p.batteryInfo);
      LabelledFree("Battery: ", p.batteryInfo.value);
    }
  }

  lemma HeaderFree(kind: Sms.AlertKind)
    ensures '\n' !in Header(kind)
  {
    match kind
    case PanicAlert =>
    case CheckInMissed =>
    case GeneralAlert =>
  }

  lemma LabelledFree(tag: string, value: string)
    requires '\n' !in tag && '\n' !in value
    ensures '\n' !in tag + value
  {
  }

  /** `messageText.substring(0, 4096)`. */
  function Truncate(s: string): (r: string)
    ensures |r| == if |s| <= 4096 then |s| else 4096
    ensures StartsWith(s, r)
  {
    if |s| <= 4096 then s else s[..4096]
  }

  /** `WhatsAppBatteryInfo`; `batteryLevel` is the rendered level. */
  datatype Battery = Battery(batteryLevel: string, isCharging: bool, deviceModel: string, manufacturer: string)

  /** The map link for a pair of six-decimal coordinates. */
  function MapLink(lat: string, lng: string): (u: string)
    ensures StartsWith(u, "https://www.google.com/maps?q=")
    ensures u == "https://www.google.com/maps?q=" + lat + "," + lng
  {
    StartsWithConcat("https://www.google.com/maps?q=", lat + "," + lng);
    assert "https://www.google.com/maps?q=" + lat + "," + lng == "https://www.google.com/maps?q=" + (lat + "," + lng);
    "https://www.google.com/maps?q=" + (lat + "," + lng)
  }

  /** The charge state, `Charging` or the level with a percent sign. */
  function ChargeText(b: Battery): string {
    if b.isCharging then "Charging" else b.batteryLevel + "%"
  }

  /** The battery line's value: the charge state, then the device in parentheses. */
  function BatteryText(b: Battery): (t: string)
    ensures StartsWith(t, ChargeText(b))
    ensures t == ChargeText(b) + " (" + b.manufacturer + " " + b.deviceModel + ")"
  {
    var device := " (" + b.manufacturer + " " + b.deviceModel + ")";
    StartsWithConcat(ChargeText(b), device);
    ChargeText(b) + device
  }

  /** `generateAlertMessage`: location text and map link to six decimals,
      both present or both absent; battery as `Charging` or `<level>%`
      followed by the device. `timestamp` is the India-time locale text of the
      current time. */
  function GenerateAlertMessage(kind: Sms.AlertKind, location: Option<Point>, userName: Option<string>,
                                battery: Option<Battery>, timestamp: string): (r: AlertParams)
    ensures r.kind == kind && r.timestamp == timestamp
    ensures r.userName.Some? && r.userName.value == OrElse(userName, "User")
    ensures r.location.Some? <==> location.Some?
    ensures r.locationLink.Some? <==> location.Some?
    ensures location.Some? ==>
              var lat := location.value.latitude.fixed6;
              var lng := location.value.longitude.fixed6;
              && r.location.value == lat + ", " + lng
              && StartsWith(r.locationLink.value, "https://www.google.com/maps?q=")
              && r.locationLink.value == "https://www.google.com/maps?q=" + lat + "," + lng
    ensures r.batteryInfo.Some? <==> battery.Some?
    ensures battery.Some? ==>
              && StartsWith(r.batteryInfo.value, if battery.value.isCharging then "Charging" else battery.value.batteryLevel + "%")
              && r.batteryInfo.value == (if battery.value.isCharging then "Charging" else battery.value.batteryLevel + "%")
                                        + " (" + battery.value.manufacturer + " " + battery.value.deviceModel + ")"
  {
    var name := OrElse(userName, "User");
    var loc := if location.Some? then Some(location.value.latitude.fixed6 + ", " + location.value.longitude.fixed6) else None;
    var link := if location.Some? then Some(MapLink(location.value.latitude.fixed6, location.value.longitude.fixed6)) else None;
    var bat := if battery.Some? then Some(BatteryText(battery.value)) else None;
    AlertParams(kind, Some(name), timestamp, loc, link, bat)
  }

  /** A generated alert, once rendered, carries a map line exactly when a
      location was given, a battery line exactly when battery information was
      given, and the coordinates or `Unknown` on its location line. */
  lemma GeneratedAlertLines(kind: Sms.AlertKind, location: Option<Point>, userName: Option<string>,
                            battery: Option<Battery>, timestamp: string)
    ensures var ls := AlertLines(GenerateAlertMessage(kind, location, userName, battery, timestamp));
            && |ls| == 6 + (if location.Some? then 1 else 0) + (if battery.Some? then 1 else 0)
            && ls[5] == "Location: " + (if location.Some? then location.value.latitude.fixed6 + ", " + location.value.longitude.fixed6 else "Unknown")
  {
    var p := GenerateAlertMessage(kind, location, userName, battery, timestamp);
    if location.Some? {
      assert |p.locationLink.value| >= |"https://www.google.com/maps?q="|;
      assert |p.location.value| >= 2;
    }
    if battery.Some? {
      assert p.batteryInfo.value != "";
    }
  }

  // ---------------------------------------------------------------------------
  // sendWhatsApp

  /** What the caller put in the `message` field: text, or (wrongly) an
      alert-parameter object. */
  datatype Payload = Text(text: string) | ParamsObject(params: AlertParams)

  /** The two shapes of `sendWhatsApp`'s argument. */
  datatype Options = Message(to: string, message: Payload) | WithAlertParams(to: string, alertParams: AlertParams) {
    function Recipient(): string {
      match this
      case Message(to, _) => to
      case WithAlertParams(to, _) => to
    }
  }

  /** The text to send, or `None` where building it throws: calling
      `substring` on an object that is not a string. */
  function MessageText(options: Options): (r: Option<string>)
    ensures r.None? <==> options.Message? && options.message.ParamsObject?
  {
    match options
    case WithAlertParams(_, p) => Some(RenderAlert(p))
    case Message(_, Text(t)) => Some(t)
    case Message(_, ParamsObject(_)) => None
  }

  /** The parsed reply body: not JSON, `null`, or an object with the
      truthiness of its `error` field and of `messages[0].id`. */
  datatype Json = NotJson | JsonNull | JsonObject(errorTruthy: bool, firstIdTruthy: bool)

  /** What the Graph API request came to: a thrown error or a response. */
  datatype HttpOutcome = NetworkFailure | Response(ok: bool, body: Json)

  /** The request made: endpoint, access token, normalised recipient and body. */
  datatype Request = Request(url: string, accessToken: string, to: string, body: string)

  datatype WhatsAppReport = WhatsAppReport(sent: bool, request: Option<Request>)

  /** The reply that counts as delivered. */
  predicate Accepted(http: HttpOutcome) {
    http.Response? && http.ok && http.body.JsonObject? && !http.body.errorTruthy && http.body.firstIdTruthy
  }

  /** The Graph API messages endpoint for a sender's phone-number id. */
  function GraphEndpoint(phoneNumberId: string): string {
    "https://graph.facebook.com/v22.0/" + phoneNumberId + "/messages"
  }

  /** `sendWhatsApp`: no request without an access token, with fewer than ten
      digits in the recipient, or when the text cannot be built; otherwise the
      first 4096 characters go to the normalised number, and the send counts
      only for an ok reply whose JSON has no error and a first message id.
      Every failure is `false`, never a throw. */
  function SendWhatsApp(options: Options, token: Option<string>, phoneNumberId: Option<string>, http: HttpOutcome): (r: WhatsAppReport)
    ensures r.request.Some? <==>
              Truthy(token) && |FormatPhoneNumber(options.Recipient())| >= 10 && MessageText(options).Some?
    ensures r.sent <==> r.request.Some? && Accepted(http)
    ensures r.request.Some? ==>
              && r.request.value.to == FormatPhoneNumber(options.Recipient())
              && r.request.value.accessToken == token.value
              && |r.request.value.body| <= 4096
              && StartsWith(MessageText(options).value, r.request.value.body)
              && r.request.value.body == Truncate(MessageText(options).value)
              && r.request.value.url == GraphEndpoint(OrElse(phoneNumberId, DEFAULT_PHONE_NUMBER_ID))
  {
    var config := GetWhatsAppConfig(token, phoneNumberId);
    if config.None? then WhatsAppReport(false, None)
    else
      var phone := FormatPhoneNumber(options.Recipient());
      if |phone| < 10 then WhatsAppReport(false, None)
      else
        var text := MessageText(options);
        if text.None? then WhatsAppReport(false, None)
        else
          var url := GraphEndpoint(config.value.phoneNumberId);
          WhatsAppReport(Accepted(http), Some(Request(url, config.value.accessToken, phone, Truncate(text.value))))
  }

  /** An alert-parameter object passed as `message` is never delivered, and no
      request is made, whatever the configuration and the network do. */
  lemma ObjectMessageNeverSent(to: string, p: AlertParams, token: Option<string>, phoneNumberId: Option<string>, http: HttpOutcome)
    ensures !SendWhatsApp(Message(to, ParamsObject(p)), token, phoneNumberId, http).sent
    ensures SendWhatsApp(Message(to, ParamsObject(p)), token, phoneNumberId, http).request.None?
  {
  }

  /** Passed as `alertParams`, the same alert is sent, rendered, and is
      delivered when the configuration, the number and the reply allow it. */
  lemma AlertParamsSent(to: string, p: AlertParams, token: Option<string>, phoneNumberId: Option<string>, http: HttpOutcome)
    requires Truthy(token) && |FormatPhoneNumber(to)| >= 10 && Accepted(http)
    requires |RenderAlert(p)| <= 4096
    ensures var r := SendWhatsApp(WithAlertParams(to, p), token, phoneNumberId, http);
            r.sent && r.request.Some? && r.request.value.body == RenderAlert(p)
  {
  }
}
