/** The WhatsApp test script (scripts/test-whatsapp.js): reading `.env`
    into the process environment, choosing the event type from the command
    line, building the test alert and sending it to both alert numbers. The
    file system, the command line, the clock text and the network replies
    arrive as parameters. */
module EnvScript {
  import opened Wrappers
  import opened Text
  import WhatsApp
  import Sms

  // ---------------------------------------------------------------------------
  // loadEnv

  /** One line of `.env`: after trimming, a blank line or a `#` comment
      assigns nothing; otherwise the text before the first `=` is the key and
      everything after it, later `=` included, is the value, both trimmed. A
      line without `=` or with nothing before it assigns nothing. */
  function ParseEnvLine(line: string): (r: Option<(string, string)>)
    ensures r.Some? ==> r.value.0 != ""
  {
    TrimmedStartsNonSpace(line);
    ParseTrimmed(Trim(line))
  }

  /** The same for the trimmed line. */
  function ParseTrimmed(t: string): (r: Option<(string, string)>)
    requires t == [] || !IsSpace(t[0])
    ensures r.Some? ==> r.value.0 != ""
  {
    if t == "" || StartsWith(t, "#") then None else EnvFields(t)
  }

  /** `const [key, ...valueParts] = trimmed.split('=')` and the test on
      `key` and `valueParts`, for a line that starts with a character
      trimming keeps. */
  function EnvFields(t: string): (r: Option<(string, string)>)
    requires t != [] && !IsSpace(t[0])
    ensures r.Some? ==> r.value.0 != ""
  {
    var parts := Split(t, '=');
    var key := parts[0];
    if key != "" && |parts| > 1 then
      NonSpaceStartNotBlank(key);
      Some((Trim(key), Trim(Join(parts[1..], '='))))
    else None
  }

  /** The fields of a line: the key is the trimmed text before the first
      `=` and the value the trimmed text after it, and a line assigns
      exactly when it has an `=` with something before it. */
  lemma EnvFieldsSplitAtFirstEquals(t: string)
    requires t != [] && !IsSpace(t[0])
    ensures EnvFields(t).Some? <==> '=' in t && IndexOf(t, '=') > 0
    ensures EnvFields(t).Some? ==>
              var i := IndexOf(t, '=');
              EnvFields(t).value.0 == Trim(t[..i]) && EnvFields(t).value.1 == Trim(t[i + 1..])
  {
    if '=' in t {
      SplitFirst(t, '=');
    }
  }

  /** Blank lines and comments assign nothing; any other line assigns as
      its trimmed text's fields say. */
  lemma SkipsBlankAndComments(t: string)
    requires t == [] || !IsSpace(t[0])
    ensures (t == "" || t[0] == '#') ==> ParseTrimmed(t).None?
    ensures t != "" && t[0] != '#' ==> ParseTrimmed(t) == EnvFields(t)
  {
    if t != "" {
      assert StartsWith(t, "#") <==> t[0] == '#' by {
        assert t[..1] == [t[0]];
      }
    }
  }

  /** The assignments the lines make, in order. */
  function Assignments(lines: seq<string>): (a: seq<Option<(string, string)>>)
    ensures |a| == |lines| && forall j :: 0 <= j < |lines| ==> a[j] == ParseEnvLine(lines[j])
  {
    seq(|lines|, j requires 0 <= j < |lines| => ParseEnvLine(lines[j]))
  }

  /** The variables a sequence of assignments defines: `envVars[key] =
      value` for each in turn, a later one replacing an earlier. */
  function Apply(a: seq<Option<(string, string)>>): map<string, string>
    decreases |a|
  {
    if a == [] then map[]
    else
      var m := Apply(a[..|a| - 1]);
      var x := a[|a| - 1];
      if x.Some? then m[x.value.0 := x.value.1] else m
  }

  predicate Assigns(x: Option<(string, string)>, k: string) {
    x.Some? && x.value.0 == k
  }

  /** The variables a `.env` text defines, line by line. */
  function EnvVars(lines: seq<string>): map<string, string> {
    Apply(Assignments(lines))
  }

  /** A key is defined by the last assignment to it. */
  lemma {:induction false} LastAssignmentWins(a: seq<Option<(string, string)>>, k: string, i: nat)
    requires i < |a| && Assigns(a[i], k)
    requires forall j :: i < j < |a| ==> !Assigns(a[j], k)
    ensures k in Apply(a) && Apply(a)[k] == a[i].value.1
    decreases |a|
  {
    var init := a[..|a| - 1];
    if i < |a| - 1 {
      assert forall j :: i < j < |init| ==> init[j] == a[j];
      LastAssignmentWins(init, k, i);
      assert !Assigns(a[|a| - 1], k);
    }
  }

  /** A key nothing assigns is not defined. */
  lemma {:induction false} UnassignedAbsent(a: seq<Option<(string, string)>>, k: string)
    requires forall j :: 0 <= j < |a| ==> !Assigns(a[j], k)
    ensures k !in Apply(a)
    decreases |a|
  {
    if a != [] {
      var init := a[..|a| - 1];
      assert forall j :: 0 <= j < |init| ==> init[j] == a[j];
      UnassignedAbsent(init, k);
      assert !Assigns(a[|a| - 1], k);
    }
  }

  /** In a `.env` text, a later line assigning a key overrides earlier
      ones, and a key no line assigns stays undefined. */
  lemma LaterLineOverrides(lines: seq<string>, k: string, i: nat)
    requires i < |lines| && Assigns(ParseEnvLine(lines[i]), k)
    requires forall j :: i < j < |lines| ==> !Assigns(ParseEnvLine(lines[j]), k)
    ensures k in EnvVars(lines) && EnvVars(lines)[k] == ParseEnvLine(lines[i]).value.1
  {
    LastAssignmentWins(Assignments(lines), k, i);
  }

  /** `loadEnv`: without a `.env` file the environment is unchanged;
      otherwise the file's variables are copied over it, replacing values
      already set. */
  function LoadEnv(file: Option<string>, env: map<string, string>): (r: map<string, string>)
    ensures file.None? ==> r == env
    ensures file.Some? ==> forall k :: k in EnvVars(Split(file.value, '\n')) ==> k in r && r[k] == EnvVars(Split(file.value, '\n'))[k]
    ensures forall k :: k in env && (file.None? || k !in EnvVars(Split(file.value, '\n'))) ==> k in r && r[k] == env[k]
    ensures forall k :: k in r ==> k in env || (file.Some? && k in EnvVars(Split(file.value, '\n')))
  {
    if file.None? then env else env + EnvVars(Split(file.value, '\n'))
  }

  // ---------------------------------------------------------------------------
  // The event type and the test alert

  const VALID_EVENT_TYPES: seq<string> := ["panic", "check_in_missed", "alert"]

  /** `process.argv[2] || 'panic'`, replaced by `panic` when it is not one of
      the three event types. */
  function SelectEventType(arg: Option<string>): (e: string)
    ensures e in VALID_EVENT_TYPES
    ensures Truthy(arg) && arg.value in VALID_EVENT_TYPES ==> e == arg.value
    ensures !(Truthy(arg) && arg.value in VALID_EVENT_TYPES) ==> e == "panic"
  {
    var e := OrElse(arg, "panic");
    if e in VALID_EVENT_TYPES then e else "panic"
  }

  /** The alert kind an event-type name stands for; any other name is the
      general alert. */
  function KindOfName(e: string): Sms.AlertKind {
    if e == "panic" then Sms.PanicAlert
    else if e == "check_in_missed" then Sms.CheckInMissed
    else Sms.GeneralAlert
  }

  /** The header line the script writes for an event type. */
  function AlertTypeText(e: string): string {
    if e == "panic" then "🚨 PANIC ALERT"
    else if e == "check_in_missed" then "⏰ MISSED CHECK-IN"
    else "⚠️ SAFETY ALERT"
  }

  const TEST_LOCATION := "12.971598, 77.594566"
  const TEST_MAP := "https://www.google.com/maps?q=12.971598,77.594566"
  const TEST_BATTERY := "85% (Test Device)"

  /** The fixed test alert: header, a test user, the time, a fixed location,
      its map link and a battery line, each line ended by a line break. */
  function ScriptMessage(e: string, timestamp: string): string {
    ScriptMessageOf(AlertTypeText(e), timestamp)
  }

  function ScriptMessageOf(header: string, timestamp: string): string {
    (header + "\n\n")
    + "User: Test User\n"
    + ("Time: " + timestamp + "\n\n")
    + ("Location: " + TEST_LOCATION + "\n")
    + ("Map: " + TEST_MAP + "\n")
    + ("Battery: " + TEST_BATTERY + "\n")
  }

  /** The alert parameters the application would render for the test alert. */
  function TestParams(e: string, timestamp: string): WhatsApp.AlertParams {
    WhatsApp.AlertParams(KindOfName(e), Some("Test User"), timestamp, Some(TEST_LOCATION), Some(TEST_MAP), Some(TEST_BATTERY))
  }

  /** The script's test alert is exactly the text the application's WhatsApp
      service renders for the same alert. */
  lemma ScriptMessageIsRenderedAlert(e: string, timestamp: string)
    ensures ScriptMessage(e, timestamp) == WhatsApp.RenderAlert(TestParams(e, timestamp))
  {
    TestAlertLines(e, timestamp);
    TerminatedLines(AlertTypeText(e), timestamp);
  }

  /** The lines the application's service renders for the test alert. */
  lemma TestAlertLines(e: string, timestamp: string)
    ensures WhatsApp.AlertLines(TestParams(e, timestamp)) + [""]
            == [AlertTypeText(e), "", "User: Test User", "Time: " + timestamp, "",
                "Location: " + TEST_LOCATION, "Map: " + TEST_MAP, "Battery: " + TEST_BATTERY, ""]
  {
    var p := TestParams(e, timestamp);
    assert WhatsApp.Header(p.kind) == AlertTypeText(e);
    assert Truthy(p.userName) && Truthy(p.location) && Truthy(p.locationLink) && Truthy(p.batteryInfo);
    var base := [AlertTypeText(e), "", "User: Test User", "Time: " + timestamp, "", "Location: " + TEST_LOCATION];
    assert OrElse(p.userName, "User") == "Test User";
    assert "User: " + "Test User" == "User: Test User";
    assert OrElse(p.location, "Unknown") == TEST_LOCATION;
    assert WhatsApp.AlertLines(p) == base + ["Map: " + TEST_MAP] + ["Battery: " + TEST_BATTERY];
  }

  /** The test alert's lines joined with line breaks: the text the script
      builds line by line. */
  lemma TerminatedLines(header: string, timestamp: string)
    ensures var ls := [header, "", "User: Test User", "Time: " + timestamp, "",
                       "Location: " + TEST_LOCATION, "Map: " + TEST_MAP, "Battery: " + TEST_BATTERY, ""];
            Join(ls, '\n') == ScriptMessageOf(header, timestamp)
  {
    var user, time := "User: Test User", "Time: " + timestamp;
    var loc, link, battery := "Location: " + TEST_LOCATION, "Map: " + TEST_MAP, "Battery: " + TEST_BATTERY;
    JoinedAlert(header, user, time, loc, link, battery);
    assert user + "\n" == "User: Test User\n";
  }

  /** Nine alert lines joined with line breaks, two of them blank and an
      empty last one. */
  lemma JoinedAlert(header: string, user: string, time: string, loc: string, link: string, battery: string)
    ensures Join([header, "", user, time, "", loc, link, battery, ""], '\n')
         == (header + "\n\n") + (user + "\n") + (time + "\n\n") + (loc + "\n") + (link + "\n") + (battery + "\n")
  {
    var ls := [header, "", user, time, "", loc, link, battery, ""];
    assert Join(ls[..1], '\n') == header;
    JoinPrefixStep(ls, 1);
    JoinPrefixStep(ls, 2);
    var p2 := header + "\n\n" + user;
    assert Join(ls[..3], '\n') == p2;
    JoinPrefixStep(ls, 3);
    var p3 := p2 + "\n" + time;
    assert Join(ls[..4], '\n') == p3;
    JoinPrefixStep(ls, 4);
    JoinPrefixStep(ls, 5);
    var p5 := p3 + "\n\n" + loc;
    assert Join(ls[..6], '\n') == p5;
    JoinPrefixStep(ls, 6);
    JoinPrefixStep(ls, 7);
    JoinPrefixStep(ls, 8);
    assert ls[..9] == ls;
  }

  lemma JoinPrefixStep(ls: seq<string>, k: nat)
    requires 1 <= k < |ls|
    ensures Join(ls[..k + 1], '\n') == Join(ls[..k], '\n') + "\n" + ls[k]
  {
    assert ls[..k + 1] == ls[..k] + [ls[k]];
    JoinSnoc(ls[..k], ls[k], '\n');
  }

  // ---------------------------------------------------------------------------
  // sendWhatsApp and main

  /** `sendWhatsApp` up to the request: a normalised number of fewer than
      ten digits throws `Invalid phone number`; otherwise the first 4096
      characters of the text go to the normalised number, at the Graph API
      endpoint of the configured phone-number id. */
  function PrepareSend(token: string, phoneNumberId: string, to: string, messageText: string): (r: Result<WhatsApp.Request, string>)
    ensures r.Err? <==> |WhatsApp.FormatPhoneNumber(to)| < 10
    ensures r.Err? ==> r.error == "Invalid phone number"
    ensures r.Ok? ==> && r.value.to == WhatsApp.FormatPhoneNumber(to) && r.value.accessToken == token
                      && |r.value.body| <= 4096 && StartsWith(messageText, r.value.body)
                      && (|messageText| <= 4096 ==> r.value.body == messageText)
                      && r.value.body == WhatsApp.Truncate(messageText)
                      && r.value.url == WhatsApp.GraphEndpoint(phoneNumberId)
  {
    var phone := WhatsApp.FormatPhoneNumber(to);
    if |phone| < 10 then Err("Invalid phone number")
    else Ok(WhatsApp.Request(WhatsApp.GraphEndpoint(phoneNumberId), token, phone, WhatsApp.Truncate(messageText)))
  }

  /** The script's send succeeds, rather than throwing, exactly for a
      prepared request and an ok reply whose JSON carries no error and a
      first message id. */
  predicate ScriptSent(token: string, phoneNumberId: string, to: string, messageText: string, http: WhatsApp.HttpOutcome) {
    PrepareSend(token, phoneNumberId, to, messageText).Ok? && WhatsApp.Accepted(http)
  }

  /** With a token and a number id set, the script and the application's
      service make the same request for a text message and agree on whether
      it was delivered. */
  lemma ScriptAgreesWithService(token: string, phoneNumberId: string, to: string, messageText: string, http: WhatsApp.HttpOutcome)
    requires token != "" && phoneNumberId != ""
    ensures var app := WhatsApp.SendWhatsApp(WhatsApp.Message(to, WhatsApp.Text(messageText)), Some(token), Some(phoneNumberId), http);
            var script := PrepareSend(token, phoneNumberId, to, messageText);
            && (app.request.Some? <==> script.Ok?)
            && (script.Ok? ==> app.request.value == script.value)
            && (app.sent <==> ScriptSent(token, phoneNumberId, to, messageText, http))
  {
  }

  /** How `main` ended: a required setting missing, or both sends tried,
      with whether each succeeded. */
  datatype Run = MissingSetting(name: string) | Ran(iosSent: bool, androidSent: bool)

  const TOKEN_VAR := "EXPO_PUBLIC_WHATSAPP_ACCESS_TOKEN"
  const NUMBER_ID_VAR := "EXPO_PUBLIC_WHATSAPP_PHONE_NUMBER_ID"
  const IOS_VAR := "EXPO_PUBLIC_WHATSAPP_ALERT_PHONE_IOS"
  const ANDROID_VAR := "EXPO_PUBLIC_WHATSAPP_ALERT_PHONE_ANDROID"

  function Lookup(env: map<string, string>, name: string): Option<string> {
    if name in env then Some(env[name]) else None
  }

  /** `main` after `loadEnv`: the token, the number id and both alert
      numbers must be set, in that order; then the test alert for the chosen
      event type goes to the iOS number and then to the Android number, the
      failure of one not stopping the other. The two alert numbers share one
      check and one message naming both variables; the model reports that
      check as `MissingSetting(IOS_VAR)` whichever of the two is missing. */
  function RunScript(env: map<string, string>, arg: Option<string>, timestamp: string,
                iosReply: WhatsApp.HttpOutcome, androidReply: WhatsApp.HttpOutcome): (r: Run)
    ensures r.Ran? <==> Truthy(Lookup(env, TOKEN_VAR)) && Truthy(Lookup(env, NUMBER_ID_VAR))
                        && Truthy(Lookup(env, IOS_VAR)) && Truthy(Lookup(env, ANDROID_VAR))
    ensures r.MissingSetting? && !Truthy(Lookup(env, TOKEN_VAR)) ==> r.name == TOKEN_VAR
    ensures r.Ran? ==>
              var msg := ScriptMessage(SelectEventType(arg), timestamp);
              && (r.iosSent <==> ScriptSent(env[TOKEN_VAR], env[NUMBER_ID_VAR], env[IOS_VAR], msg, iosReply))
              && (r.androidSent <==> ScriptSent(env[TOKEN_VAR], env[NUMBER_ID_VAR], env[ANDROID_VAR], msg, androidReply))
  {
    var token := Lookup(env, TOKEN_VAR);
    var numberId := Lookup(env, NUMBER_ID_VAR);
    var ios := Lookup(env, IOS_VAR);
    var android := Lookup(env, ANDROID_VAR);
    if !Truthy(token) then MissingSetting(TOKEN_VAR)
    else if !Truthy(numberId) then MissingSetting(NUMBER_ID_VAR)
    else if !Truthy(ios) || !Truthy(android) then MissingSetting(IOS_VAR)
    else
      var msg := ScriptMessage(SelectEventType(arg), timestamp);
      Ran(ScriptSent(token.value, numberId.value, ios.value, msg, iosReply),
          ScriptSent(token.value, numberId.value, android.value, msg, androidReply))
  }
}
