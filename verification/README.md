# AlivePing check-in core, modelled in Dafny

AlivePing is a personal-safety "dead-man's switch". The user starts a
check-in and must confirm it before the deadline. Otherwise an alert fires,
a two-minute grace window opens, and trusted contacts are texted. The
user can also raise a panic alert at any moment. Every session is mirrored
on a ledger program, which keeps one `SafetySession` account per user.

This project models the core of that system as pure Dafny functions over
immutable datatypes, and proves what the code promises.

**The ledger program** (`Ledger`)
- All seven instructions, as total functions from the account slot and the
  runtime context to the new session or an error.
- The `init` account constraint.
- The status lifecycle.
- The Borsh layout of an `i64` and the size of the account.

**The local store and its drivers**
- `Store`: the local store's transitions.
- `CheckInHook`: the check-in hook. It covers the processing guard, the
  on-chain deadline, the per-second tick, the alert texts and the
  last-known-state writes.
- `AlertScreen`: the alert screen's grace-window countdown.
- `Home`: the home screen's scheduled-check-in scanner, the on-chain status
  label and the panic handler.

**Scheduling** (`Schedule`)
- The add-form validator, including the exact time pattern.
- `toggleDay`.
- The weekday search that places the next reminder.

**Escalation and messaging**
- `Escalation`: the phone-off escalation, with last-known state, event
  kind, recipients and the "at least one send succeeded" rule.
- `Sms`: SMS templates and the relay/direct fallback.
- `WhatsApp`: phone normalisation, message rendering, the send guards and
  the success decision.

**Small parsers and helpers**
- `Location`: the location hash, meaning hex decoding with the zero
  fallback.
- `Rpc`: the endpoint rotation and the program-id check.
- `SettingsScreen`: the settings screen's save handlers.
- `EnvScript`: the WhatsApp test script's `.env` parser, event-type
  fallback and send guard.

**Modelling choices**
- Every outside effect becomes a parameter: the clock, the location fix,
  the SHA-256 digest, HTTP outcomes, environment variables and the
  platform.
- Each send is an oracle outcome. A handler returns what it would send or
  write together with the state it leaves.
- `Text` holds the JavaScript string primitives the code relies on: `trim`,
  `split`/`join`, `parseInt`, truthiness, and `Number` on blank text and
  on optionally signed runs of decimal digits.
- Where a JavaScript operator differs from Dafny's (`%` on negative
  numbers, `||` on `0`, `??`), the JavaScript meaning is written out.

**Where the model departs from intuition**
- The store's `startCheckIn` always uses a five-minute duration. The hook,
  however, sends the ledger a deadline built from the configured duration.
  The two come from separate clock readings around the ledger call.
  `CheckInHook.StoreDueMinusDeadline` gives their exact difference;
  `CheckInHook.DeadlineAgreesWithStoreOnlyAtFive` shows that, when the
  ledger call takes no time, they agree only when the setting is 5 or
  unset.
- `close_session` marks the account Closed but never closes it. `init` then
  refuses the same address forever, so a user can run only one ledger
  session in their lifetime (`Ledger.CreatedOnce`).

## Model

| member | source | states |
|---|---|---|
| Ledger.StatusOfCode | contracts/aliveping/src/lib.rs:258-265 | a status byte names a status iff it is below 5, and naming a status's code gives that status back |
| Ledger.StatusCodeRoundTrip | contracts/aliveping/src/lib.rs:258-265 | the `u8` discriminant of each `SafetyStatus` decodes back to that status |
| Ledger.Load | contracts/aliveping/src/lib.rs:159-168 | an existing-session instruction proceeds iff the account exists and its `user` is the signer, and then acts on that account |
| Ledger.StartCheckInIx | contracts/aliveping/src/lib.rs:9-37 | fails with AccountInUse on an existing account; otherwise succeeds iff now < deadline <= now + 86400; names InvalidDeadline and DeadlineTooFar; a new session is Active/CheckIn with start = last ping = now and the given deadline and hash |
| Ledger.TriggerPanicIx | contracts/aliveping/src/lib.rs:39-56 | succeeds iff no account exists, with no time check; the session is Panic/Panic with start = deadline = last ping = now |
| Ledger.CloseSessionIx | contracts/aliveping/src/lib.rs:58-74 | for the owner's session it succeeds iff the status code is Active, Confirmed, Expired or Panic, and then only the status (now Closed) and the last ping (now) change |
| Ledger.ConfirmSafeIx | contracts/aliveping/src/lib.rs:76-89 | only an Active session is accepted; it becomes Confirmed with last ping = now and nothing else changes |
| Ledger.CancelCheckInIx | contracts/aliveping/src/lib.rs:91-104 | only an Active session is accepted; it becomes Closed with last ping = now and nothing else changes |
| Ledger.ExpireCheckInIx | contracts/aliveping/src/lib.rs:106-124 | for the owner's session it succeeds iff the status is Active and now >= deadline, fails with DeadlineNotReached when Active before the deadline, and then only the status (Expired) and the last ping (now) change |
| Ledger.UpdateLastPingIx | contracts/aliveping/src/lib.rs:126-138 | only an Active session is accepted and only its last ping changes |
| Ledger.GuardedRejectNonActive | contracts/aliveping/src/lib.rs:80-83 | confirm, cancel, expire and ping reject every non-Active status with NotActive and leave the account unchanged |
| Ledger.Execute | contracts/aliveping/src/lib.rs:9-138 | start and panic fail with AccountInUse on an existing account and are the only instructions that create one; the others fail as the account constraints do, and on success change only the status and the last ping; every success is the signer's session with last ping = now |
| Ledger.ExecuteFollowsLifecycle | contracts/aliveping/src/lib.rs:58-138 | every successful instruction on a session follows Active -> {Active, Confirmed, Expired, Closed} or {Confirmed, Expired, Panic} -> Closed |
| Ledger.ClosedIsFinal | contracts/aliveping/src/lib.rs:62-71 | every instruction on a Closed session fails and leaves it as it is |
| Ledger.CloseFromAnyOpenStatus | contracts/aliveping/src/lib.rs:62-71 | close succeeds exactly from Active, Confirmed, Expired and Panic, and yields Closed |
| Ledger.UnusedErrors | contracts/aliveping/src/lib.rs:273-289 | the declared errors SessionExists and InvalidState are never raised by any instruction |
| Ledger.CreatedOnce | contracts/aliveping/src/lib.rs:147-153 | once an account exists, no sequence of instructions removes it, so start and panic fail with AccountInUse forever after |
| Ledger.ExecutePreservesValid | contracts/aliveping/src/lib.rs:9-138 | every instruction keeps the session shape: start <= last ping, a check-in's deadline within the horizon, a panic session Panic or Closed, an expired session past its deadline |
| Ledger.LeBytes | contracts/aliveping/src/lib.rs:242-252 | the little-endian field bytes have the requested width |
| Ledger.LeValue | contracts/aliveping/src/lib.rs:242-252 | the value of n little-endian bytes lies below 256^n |
| Ledger.LeValueOfLeBytes | contracts/aliveping/src/lib.rs:242-252 | reading back the little-endian bytes of a value that fits gives the value |
| Ledger.LeBytesOfLeValue | contracts/aliveping/src/lib.rs:242-252 | writing the value of any byte string at its width gives the same bytes |
| Ledger.Pow256Of8 | contracts/aliveping/src/lib.rs:242-252 | eight bytes span exactly 2^64 values, the range of an `i64` field |
| Ledger.EncodeI64 | contracts/aliveping/src/lib.rs:242-252 | an `i64` field takes eight bytes |
| Ledger.I64RoundTrip | contracts/aliveping/src/lib.rs:242-252 | decoding the two's-complement bytes of any `i64` gives it back |
| Ledger.I64BytesRoundTrip | contracts/aliveping/src/lib.rs:242-252 | encoding the decoded value of any eight bytes gives the same bytes |
| Ledger.Encode | contracts/aliveping/src/lib.rs:242-256 | a serialized session is exactly `LEN` = 91 bytes, the sum of the field widths |
| Ledger.DecodeEncode | contracts/aliveping/src/lib.rs:242-256 | decoding a serialized session gives the session back |
| Ledger.Decode | contracts/aliveping/src/lib.rs:242-256 | data decodes iff it holds at least `LEN` = 91 bytes, and re-encoding the session gives back exactly its first 91 bytes |
| Store.StartCheckIn | lib/store.ts:65-75 | the check-in is active from now, due 300000 ms later, with no grace window; events and contacts are kept |
| Store.ConfirmCheckIn | lib/store.ts:77-94 | no-op without a check-in; otherwise exactly one CHECK_IN/confirmed event carrying the due time is prepended and the check-in cleared, also during an alert |
| Store.CancelCheckIn | lib/store.ts:96-98 | clears the check-in and leaves the log and the contacts alone |
| Store.TriggerAlert | lib/store.ts:100-124 | always prepends one ALERT/triggered event stamped now; an existing check-in gains grace end now + 120000 with its other fields kept; a missing one stays missing |
| Store.CancelAlert | lib/store.ts:126-147 | changes the state iff a grace end is set and now <= that end; then one ALERT/cancelled event is prepended and the check-in cleared |
| Store.ClearEvents | lib/store.ts:149 | empties the log and keeps everything else |
| Store.AddTrustedContact | lib/store.ts:151-160 | appends exactly one contact (the input plus its id) after the unchanged existing ones |
| Store.WithoutIdKeepsOthers | lib/store.ts:162-165 | the filter keeps exactly the contacts whose id differs |
| Store.RemoveTrustedContact | lib/store.ts:162-165 | a contact survives iff it was there and has another id; log and check-in are kept |
| Store.WithoutIdAppend | lib/store.ts:164 | the filter distributes over concatenation, so survivors keep their order |
| Store.WithoutAbsentId | lib/store.ts:164 | removing an id nobody has changes nothing |
| Store.RemoveIdempotent | lib/store.ts:162-165 | removing the same id twice is the same as once |
| Store.AddThenRemove | lib/store.ts:151-165 | adding a contact with a fresh id and removing that id restores the state exactly |
| Store.StepPrepends | lib/store.ts:81-92 | every action except clear keeps the old log as a suffix and adds at most one entry |
| Store.RunPrepends | lib/store.ts:81-147 | over any run without clear the old log stays a suffix and grows by at most one entry per action |
| Store.SuffixTransitive | lib/store.ts:81-147 | a suffix of a suffix is a suffix, so prepends compose |
| Store.OnlyClearShrinks | lib/store.ts:149 | an action that shortens the log is clear |
| Store.CancelWindow | lib/store.ts:126-133 | after start and trigger at t1, cancelling succeeds iff now <= t1 + 120000, including exactly at the end |
| Store.ConfirmDuringAlert | lib/store.ts:77-94 | a confirm after the alert fired still logs a confirmation and ends the check-in |
| Store.TriggerTwice | lib/store.ts:100-124 | triggering twice logs two alerts and moves the grace end to the second trigger |
| Store.CancelAlertAfterCancelCheckIn | lib/store.ts:126-128 | once the check-in is cancelled, cancelling the alert does nothing |
| CheckInHook.DurationMs | lib/hooks/useCheckIn.ts:33 | the configured minutes in milliseconds, or five minutes when the setting is 0 |
| CheckInHook.Deadline | lib/hooks/useCheckIn.ts:34 | the deadline is the floor of (now + duration) / 1000 |
| CheckInHook.StoreDueMinusDeadline | lib/hooks/useCheckIn.ts:33-48 | with the deadline read before the ledger call and the store's clock read after it, the store's due time minus 1000 × the deadline is the call's duration plus five minutes less the configured duration plus the milliseconds the floor drops |
| CheckInHook.DeadlineAgreesWithStoreOnlyAtFive | lib/hooks/useCheckIn.ts:33-48 | when both readings give the same instant, the ledger deadline equals the store's due time in seconds iff the setting is 0 or 5 |
| CheckInHook.SlowLedgerCallSplitsDeadline | lib/hooks/useCheckIn.ts:33-48 | with the five-minute setting, a ledger call of a second or more puts the store's due time in a later second than the deadline |
| CheckInHook.FixOfOption | lib/hooks/useCheckIn.ts:42-46 | the stored location is present iff a fix was obtained |
| CheckInHook.StartCheckIn | lib/hooks/useCheckIn.ts:25-73 | nothing while processing; otherwise the ledger gets the deadline from the first clock reading and the location hash (32 zeros without a fix), the store starts at the second reading, and last-known state becomes active/check_in at the third; the ledger's answer does not change the outcome |
| CheckInHook.ConfirmCheckIn | lib/hooks/useCheckIn.ts:75-110 | nothing while processing; otherwise the ledger is asked to confirm, the store confirms at its own clock reading, and last-known state becomes confirmed at a later one; the ledger's answer does not change the outcome |
| CheckInHook.StartThenConfirm | lib/hooks/useCheckIn.ts:25-110 | start then confirm leaves no check-in, logs one confirmation carrying the due time, and records confirmed as the last state |
| CheckInHook.CountdownEffect | lib/hooks/useCheckIn.ts:112-169 | no countdown without an active check-in, frozen at 0 while the alert is active, otherwise it starts from the remaining time clamped at 0 |
| CheckInHook.Tick | lib/hooks/useCheckIn.ts:124-162 | a tick expires iff the due time has come, and otherwise shows exactly the time left |
| CheckInHook.TickDisplay | lib/hooks/useCheckIn.ts:128-161 | the displayed time is never negative and is positive iff time is left |
| CheckInHook.Expire | lib/hooks/useCheckIn.ts:128-158 | an expiring tick raises the store alert at the alert's own clock reading and then records expired/check_in with the fix, stamped with a second reading |
| CheckInHook.ExpiryFreezesCountdown | lib/hooks/useCheckIn.ts:113-122 | after an expiring tick the alert, raised at a later reading, is active for the whole grace window from that reading and the countdown stays frozen |
| CheckInHook.AlertSends | lib/hooks/useCheckIn.ts:188-216 | texts go out only when the alert is active, SMS is enabled and a contact exists; they go to the contacts in order plus the user's own number when set, all carrying the missed-check-in message |
| CheckInHook.NoContactsNoTexts | lib/hooks/useCheckIn.ts:188 | with no trusted contacts the hook texts nobody, even when the user's own number is set and the phone-off escalation would text it |
| AlertScreen.Remaining | components/alert/AlertScreen.tsx:17-24 | the displayed time is max(0, end - now): never negative, positive iff now is before the end |
| AlertScreen.DisplayedRemaining | components/alert/AlertScreen.tsx:13-27 | no countdown starts without a grace end; otherwise it shows the clamped remainder |
| AlertScreen.JsRem | components/alert/AlertScreen.tsx:32 | JavaScript `%` agrees with the mathematical remainder on non-negative operands and keeps the dividend's sign otherwise |
| AlertScreen.FormatTime | components/alert/AlertScreen.tsx:29-34 | for a non-negative time the text is minutes, a colon and two digits; the seconds lie in [0,59] and minutes * 60 + seconds = floor(ms / 1000) |
| AlertScreen.PaddedSeconds | components/alert/AlertScreen.tsx:33 | the seconds field is two digits that read back as the seconds |
| AlertScreen.Render | components/alert/AlertScreen.tsx:36-85 | nothing renders while the alert is inactive; cancel is offered iff time remains, the expired banner otherwise, and the countdown only while time remains |
| AlertScreen.CancelOfferedUntilEnd | components/alert/AlertScreen.tsx:17-24 | the cancel button is offered iff now is before the grace end |
| Rpc.Endpoints | lib/solana/connection.ts:9-24 | every network has two or three endpoints, its primary first |
| Rpc.GetConnection | lib/solana/connection.ts:28-31 | the endpoint is always one of the network's (testnet by default), the one at the index when it is in range |
| Rpc.SwitchToBackupRPC | lib/solana/connection.ts:37-41 | the index moves to the next endpoint and wraps to 0 after the last, so it stays in range |
| Rpc.SwitchTimesAdvances | lib/solana/connection.ts:39 | k switches advance an in-range index by k modulo the number of endpoints |
| Rpc.FullRotation | lib/solana/connection.ts:39 | as many switches as endpoints bring the index back to where it started |
| Rpc.GetProgramId | lib/solana/connection.ts:43-69 | the id is accepted iff it is set, is not the placeholder and decodes; unset and placeholder fail with their own errors |
| Location.HasPermission | lib/location/locationService.ts:13-21 | permission holds iff it was granted; a failed request counts as denied |
| Location.GetLocation | lib/location/locationService.ts:23-72 | a fix is returned iff permission was granted and a position came back; every other path gives null |
| Location.HexValue | lib/location/locationService.ts:126 | a hex digit's value is below 16 |
| Location.ParseHexPair | lib/location/locationService.ts:126 | two hex digits read as 16 × first + second; a hex digit followed by a non-digit reads as the first alone, except `0x`, which is NaN; a minus sign negates the following digit; no hex digit gives NaN; every value lies in (-16, 256) |
| Location.DecodeHex | lib/location/locationService.ts:124-128 | the result has half the digest's length and byte i is the value of hex pair i (0 when the pair does not parse) |
| Location.EncodeHex | lib/location/locationService.ts:120-123 | a digest is two hex digits per byte |
| Location.HexDigitValue | lib/location/locationService.ts:126 | every lower-case hex digit parses to its own value |
| Location.PairOfEncodedByte | lib/location/locationService.ts:126 | the two digits written for a byte parse back to that byte |
| Location.DecodeEncodeHex | lib/location/locationService.ts:124-128 | decoding the hex digest of any bytes gives the bytes back |
| Location.HashLocation | lib/location/locationService.ts:117-133 | without a digest (the hashing failed) the result is 32 zero bytes, otherwise half the digest's length |
| Location.HashLocationOfDigest | lib/location/locationService.ts:117-128 | a 64-digit digest of 32 bytes decodes to exactly those 32 bytes |
| Location.ContextHash | lib/hooks/useCheckIn.ts:31 | no fix gives 32 zeros; a fix gives its location hash |
| Escalation.UpdateLastKnownState | lib/services/phoneOffFallback.ts:18-20 | after the write, reading returns exactly the state written |
| Escalation.GetReturnsLastWrite | lib/services/phoneOffFallback.ts:16-24 | before any write the read is null; after writes it is the last one |
| Escalation.LastWriteWins | lib/services/phoneOffFallback.ts:18-24 | with no further writes the read keeps the earlier state; otherwise it is the last write |
| Escalation.Recipients | lib/services/phoneOffFallback.ts:56-64 | the contacts in order, then a 'self' entry iff the user's number is set |
| Escalation.EscalationKind | lib/services/phoneOffFallback.ts:39-43 | panic iff the last event was a panic, else missed check-in iff the last status was expired, else alert |
| Escalation.EscalationLocation | lib/services/phoneOffFallback.ts:37 | the last state's location when it has one, else the device's last-known fix |
| Escalation.EscalationText | lib/services/phoneOffFallback.ts:36-54 | the text opens as an alert of the escalation's kind for the user; its location line, right after the heading, names the recorded location, else the device's last-known fix; and it ends with the alert's signature followed by the phone-off notice naming the recorded time, or now when none was recorded |
| Escalation.SuccessCount | lib/services/phoneOffFallback.ts:77 | the count of successful sends is positive iff some send resolved to true |
| Escalation.EscalateViaSMS | lib/services/phoneOffFallback.ts:26-80 | false with no sends when there is nobody to text; otherwise every recipient is sent the escalation text, and the result is true iff at least one send resolved to true |
| Escalation.SendsIgnoreOutcomes | lib/services/phoneOffFallback.ts:66-76 | which messages go out does not depend on how earlier sends ended |
| Escalation.RejectionIsFailure | lib/services/phoneOffFallback.ts:70-73 | a rejected send counts as a failure and the other recipients are still attempted |
| Sms.GenerateAlertMessage | lib/services/sms.ts:103-127 | the text opens with its kind's title and the name ('User' by default), has the location line ('Location: Unknown' without a fix) right after the time, and ends with the signature |
| Sms.KindOfGeneratedMessage | lib/services/sms.ts:114-122 | the three kinds have distinct headers: the kind can be read back from any generated text |
| Sms.KindOfTitled | lib/services/sms.ts:114-122 | a text starting with a kind's title reads back as that kind |
| Sms.SendSMSDirect | lib/services/sms.ts:52-89 | a request is made iff SMS is configured; its account SID, auth token and sender number each come from the environment when set there and from the configuration otherwise; it carries the recipient and message unchanged; the result is true iff Twilio delivered |
| Sms.SendSMS | lib/services/sms.ts:18-50 | false without configuration; otherwise true iff the relay delivered, or it failed and both Twilio variables are set and the direct send delivered |
| WhatsApp.FormatPhoneNumber | lib/services/whatsapp.ts:10-12 | the result is all digits and no longer than the input |
| WhatsApp.FormatPhoneAppend | lib/services/whatsapp.ts:10-12 | normalisation distributes over concatenation |
| WhatsApp.FormatPhoneChar | lib/services/whatsapp.ts:11 | a single character is kept iff it is a decimal digit |
| WhatsApp.FormatPhoneOfDigits | lib/services/whatsapp.ts:10-12 | a string of digits is left as it is |
| WhatsApp.FormatPhoneIdempotent | lib/services/whatsapp.ts:10-12 | normalising twice is the same as once |
| WhatsApp.GetWhatsAppConfig | lib/services/whatsapp.ts:29-41 | a configuration exists iff the token is set; the phone-number id falls back to the built-in one |
| WhatsApp.GetAlertPhoneNumber | lib/services/whatsapp.ts:14-27 | on iOS the iOS number and on any other platform the Android number; a missing one is an error |
| WhatsApp.AlertLines | lib/services/whatsapp.ts:69-95 | header by kind, user ('User' by default), time, a Location line always ('Unknown' when absent), Map and Battery lines only when given |
| WhatsApp.RenderAlert | lib/services/whatsapp.ts:77-95 | each alert line followed by a newline: when no field holds a newline, splitting the text at newlines gives the alert lines back and an empty remainder |
| WhatsApp.LineFree | lib/services/whatsapp.ts:77-93 | no rendered line holds a newline when the fields hold none |
| WhatsApp.Truncate | lib/services/whatsapp.ts:105 | the body is the first min(length, 4096) characters of the text |
| WhatsApp.GenerateAlertMessage | lib/services/whatsapp.ts:183-216 | location and map link are present both or neither; the location is the two six-decimal coordinates joined by ', ' and the link is the Google Maps query URL with them joined by ','; battery is 'Charging' or the level with a percent sign, then ' (' manufacturer, space, model ')' |
| WhatsApp.GeneratedAlertLines | lib/services/whatsapp.ts:183-216 | the rendered alert always has a Location line, and a Map line iff a location was given |
| WhatsApp.MessageText | lib/services/whatsapp.ts:67-98 | there is message text unless the message is an object, which has no `substring` |
| WhatsApp.SendWhatsApp | lib/services/whatsapp.ts:52-174 | a request goes out iff the token is set, the normalised number has at least 10 digits and the message is text; it goes to the Graph API v22.0 messages endpoint of the configured or default phone-number id, with the token, the digits and the text cut to its first 4096 characters; the result is true iff a request went out and the reply carried a message id |
| WhatsApp.ObjectMessageNeverSent | lib/services/whatsapp.ts:97-105 | an object passed as the message is never sent and the result is false |
| WhatsApp.AlertParamsSent | lib/services/whatsapp.ts:69-105 | alert parameters passed as such are rendered and sent, and an accepted reply gives true |
| Schedule.ClockTextMatches | app/flows/scheduled.tsx:50 | every time of day, with the hour padded or not, matches the pattern and reads back as that hour and minute |
| Schedule.FieldsMatch | app/flows/scheduled.tsx:50 | an hour field of the allowed shape, a colon and a minute 00-59 match the pattern |
| Schedule.MinuteText | app/flows/scheduled.tsx:50 | a minute below 60 is written as two digits starting 0-5 that read back as the minute |
| Schedule.HourText | app/flows/scheduled.tsx:50 | an hour is written as one or two digits that read back as the hour |
| Schedule.MatchedTimeIsClockText | app/flows/scheduled.tsx:50 | every text the pattern accepts is an hour 0-23 and a minute 0-59 in one of the two spellings |
| Schedule.FieldsOfMatch | app/flows/scheduled.tsx:50 | an accepted text splits into an hour field of the allowed shape, a colon and a two-digit minute |
| Schedule.ParseClockTime | lib/services/scheduledCheckIns.ts:9 | every time the form's pattern accepts reads as an hour below 24 and a minute below 60 |
| Schedule.FirstMatch | lib/services/scheduledCheckIns.ts:25-31 | the least offset i below 7 whose weekday (currentDay + i) % 7 is listed, or none when no offset qualifies |
| Schedule.Least | lib/services/scheduledCheckIns.ts:22-34 | the smallest listed day |
| Schedule.LeastAbove | lib/services/scheduledCheckIns.ts:34 | the smallest listed day above the bound, present iff one exists |
| Schedule.Fallback | lib/services/scheduledCheckIns.ts:33-36 | the fallback offset exists iff some day is listed |
| Schedule.DaysToAdd | lib/services/scheduledCheckIns.ts:21-36 | the loop computes the offset; when a weekday is listed, the target weekday is listed and is the first listed one from today |
| Schedule.SearchSucceeds | lib/services/scheduledCheckIns.ts:25-36 | the search finds a day iff some listed day is a weekday, so the fallback is unreachable then |
| Schedule.OffsetDependsOnDaySet | lib/services/scheduledCheckIns.ts:23-31 | the offset depends only on which days are listed, not their order or repetition |
| Schedule.SameFirstMatch | lib/services/scheduledCheckIns.ts:25-31 | two lists with the same members give the same search result from any start |
| Schedule.NextReminder | lib/services/scheduledCheckIns.ts:4-58 | a reminder lies within the day and carries the fixed title and a body ending in the check-in's name |
| Schedule.ReminderFor | lib/services/scheduledCheckIns.ts:9-51 | the same, for a name, time and day list |
| Schedule.ReminderOfParsed | lib/services/scheduledCheckIns.ts:9-15 | no reminder when the time did not parse; otherwise the reminder for minute hours * 60 + minutes of today |
| Schedule.ReminderAt | lib/services/scheduledCheckIns.ts:14-51 | the same, for a target minute of today |
| Schedule.ReminderIsNextOccurrence | lib/services/scheduledCheckIns.ts:14-38 | for an accepted time and a listed weekday, the reminder is at that time, on a listed weekday, strictly after now, and no earlier listed occurrence after now exists |
| Schedule.ReminderOfParsedIsNext | lib/services/scheduledCheckIns.ts:14-38 | the same, for an hour below 24 and a minute below 60 already parsed |
| Schedule.ReminderAtIsNext | lib/services/scheduledCheckIns.ts:14-38 | the same, for a target minute, with today moved to tomorrow when the time is not after now |
| Schedule.Without | app/flows/scheduled.tsx:41 | the filter keeps exactly the other days |
| Schedule.ToggleDay | app/flows/scheduled.tsx:39-43 | the toggled day is selected afterwards iff it was not before; other days keep their membership |
| Schedule.ToggleOnThenOff | app/flows/scheduled.tsx:39-43 | selecting a day and deselecting it restores the selection exactly |
| Schedule.Insert | app/flows/scheduled.tsx:67 | inserting into a sorted list gives a sorted list with one more element, the same multiset plus x |
| Schedule.SortAsc | app/flows/scheduled.tsx:67 | the sort returns an ascending permutation of the days |
| Schedule.HandleAdd | app/flows/scheduled.tsx:45-72 | checks in order, each failure naming its own error: blank name, time pattern, empty selection, duration 1-60; accepted iff all pass, with the trimmed name, the sorted days, active and the parsed duration |
| Schedule.AcceptedCheckInIsReminded | app/flows/scheduled.tsx:64-78 | a check-in the form accepts with weekday days always gets a next reminder strictly after now |
| Home.InstallScanner | app/flows/home.tsx:60-65 | the scanner is installed iff no check-in is active and nothing is processing, and starts with no minute fired |
| Home.ActiveOnly | app/flows/home.tsx:79 | a schedule is kept iff it is in the list and active, and the result is no longer than the list |
| Home.Pick | app/flows/home.tsx:81-98 | a picked schedule is active, due on this day, hour and minute, and not in the minute already fired |
| Home.ScanTick | app/flows/home.tsx:67-99 | nothing fires after second 5; a fired schedule is due now and the fired minute is recorded; otherwise the record is kept |
| Home.FirstDueIsFirst | app/flows/home.tsx:79-95 | the chosen index holds a due schedule and none before it is due; no index is chosen only when no schedule is due |
| Home.ScanFiresFirstDue | app/flows/home.tsx:79-95 | within the first five seconds, a tick fires the first due schedule in list order, if any |
| Home.PickFirstDue | app/flows/home.tsx:81-95 | the loop over the active schedules picks the first due one |
| Home.NoRefireInSameMinute | app/flows/home.tsx:65-94 | after a firing, no later tick of the same scanner in the same minute fires again |
| Home.FreshScannerFires | app/flows/home.tsx:60-95 | a freshly installed scanner fires in the first five seconds iff some schedule is due |
| Home.OnChainStatus | app/flows/home.tsx:107-122 | null iff the read failed; 'Not on-chain' iff there is no session; otherwise a status label |
| Home.OnChainStatusNamesLedgerStatus | app/flows/home.tsx:110-116 | codes 0-4 show the name of the ledger status with that code, every other code shows 'Unknown' |
| Home.EveryStatusLabelled | app/flows/home.tsx:112-113 | every ledger status is shown by its own name |
| Home.PanicWith | app/flows/home.tsx:138-195 | last state is active/panic; the event flag is set iff WhatsApp is enabled (default true), an event exists and the alert number is set, and it equals the send result; the ledger hash is 32 zeros without a fix |
| Home.HandlePanic | app/flows/home.tsx:182-187 | as written, the event flag is never true and no request is ever made |
| Home.HandlePanicCorrected | app/flows/home.tsx:169-187 | last-known state becomes an active panic at the fix; the event's flag is written iff WhatsApp is enabled, an event exists and the alert number is set, and it is true iff the token is set, the number has 10 digits and the reply is accepted; the request then carries the rendered panic alert cut to 4096 characters; the ledger gets the location hash unless the alert number was missing |
| Home.PanicWhatsAppNeverDelivered | app/flows/home.tsx:182-187 | even with WhatsApp enabled, an event and an alert number, the event is marked not delivered |
| Home.CorrectedPanicDelivered | app/flows/home.tsx:169-187 | with the correction, a configured, accepted send marks the event delivered |
| Home.MissingAlertNumberSkipsLedger | app/flows/home.tsx:163-194 | when the alert number is missing, the throw ends the handler before the ledger call |
| EnvScript.ParseEnvLine | scripts/test-whatsapp.js:19-26 | an assignment read from a line always has a non-empty key |
| EnvScript.ParseTrimmed | scripts/test-whatsapp.js:21-26 | the same for a line already trimmed |
| EnvScript.EnvFields | scripts/test-whatsapp.js:22-24 | the same for the key/value split |
| EnvScript.EnvFieldsSplitAtFirstEquals | scripts/test-whatsapp.js:22-24 | a line assigns iff it holds '=' with text before the first one; the key is the trimmed text before it, the value the trimmed rest with later '=' kept |
| EnvScript.SkipsBlankAndComments | scripts/test-whatsapp.js:20-21 | blank lines and lines starting with '#' assign nothing; others go to the key/value split |
| EnvScript.Assignments | scripts/test-whatsapp.js:19 | one parse result per line, in order |
| EnvScript.LastAssignmentWins | scripts/test-whatsapp.js:24 | a key's value is the one from its last assignment |
| EnvScript.UnassignedAbsent | scripts/test-whatsapp.js:24 | a key no line assigns is absent |
| EnvScript.LaterLineOverrides | scripts/test-whatsapp.js:19-27 | over the file's lines, a key takes the value of the last line assigning it |
| EnvScript.LoadEnv | scripts/test-whatsapp.js:14-30 | without a file the environment is unchanged; otherwise file variables override and everything else is kept |
| EnvScript.SelectEventType | scripts/test-whatsapp.js:127-129 | the event type is always valid: the argument when it is one of the three, 'panic' otherwise |
| EnvScript.ScriptMessageIsRenderedAlert | scripts/test-whatsapp.js:132-143 | the script's message is the app's rendered alert for the test user, location, map link and battery |
| EnvScript.TestAlertLines | scripts/test-whatsapp.js:138-143 | the app's alert lines for the test parameters are the script's six lines |
| EnvScript.PrepareSend | scripts/test-whatsapp.js:36-52 | 'Invalid phone number' iff the normalised number has fewer than 10 digits; otherwise a request to the Graph API v22.0 messages endpoint of the given phone-number id, with the digits, the token and the body truncated to 4096 characters |
| EnvScript.ScriptAgreesWithService | scripts/test-whatsapp.js:36-52 | the script makes a request iff the app's service would, and the same one |
| EnvScript.RunScript | scripts/test-whatsapp.js:103-184 | the script sends iff the token, the phone-number id and both alert numbers are set, naming the token first when it is missing; each phone's result depends only on its own send, so one failure does not stop the other |
| SettingsScreen.OpenDuration | app/flows/settings/index.tsx:46-51 | opening fills the editor with the current minutes; an open editor is left alone |
| SettingsScreen.SaveDuration | app/flows/settings/index.tsx:82-94 | nothing while saving; otherwise a write iff parseInt gives 1-60, with the alert iff not; a failed save leaves the setting and the form |
| SettingsScreen.CancelDuration | app/flows/settings/index.tsx:68-71 | closes the editor and resets its text to the current minutes; nothing else changes and nothing is written |
| SettingsScreen.SameDurationRuleAsSchedule | app/flows/settings/index.tsx:85-87 | the settings screen accepts exactly the durations the scheduled check-in form accepts |
| SettingsScreen.SavingUnchangedDurationKeepsIt | app/flows/settings/index.tsx:46-94 | opening and saving writes the current duration back when it is in range and nothing otherwise |
| SettingsScreen.OpenPhone | app/flows/settings/index.tsx:111-116 | opening fills the editor with the current number or empty text; an open editor is left alone |
| SettingsScreen.SavePhone | app/flows/settings/index.tsx:147-157 | nothing while saving; otherwise a non-blank number is written trimmed and a blank one as null |
| SettingsScreen.CancelPhone | app/flows/settings/index.tsx:133-136 | closes the editor and resets its text to the current number; nothing else changes and nothing is written |
| SettingsScreen.SavedPhoneIsTrimmed | app/flows/settings/index.tsx:150-154 | a saved number is not blank, and saving it again writes the same value |
| SettingsScreen.SavingUnchangedPhoneKeepsIt | app/flows/settings/index.tsx:111-157 | opening and saving keeps a trimmed number and turns a missing or empty one into null |

## Left out

**Outside effects and runtime**
- I/O, React state and effects, `setInterval` timing and concurrency are not modelled. Each handler is one sequential step, and `Promise.allSettled` is a sequence of per-recipient outcomes.
- The clock is a parameter, and so is the network (HTTP replies are oracle values).
- Location services, the battery service and the platform are parameters as well.
- Telemetry (`logEvent`, `publishSafetyEvent`) and haptics are fire-and-forget. They affect no result, so they are not modelled.

**Values treated as opaque**
- Floating-point coordinates are opaque values that carry their rendered strings (`toString`, `toFixed(4)`, `toFixed(6)`). Rounding is not modelled.
- `toLocaleString` timestamps and the time-zone conversion are opaque strings or clock values.
- The scanner and the reminder search read a wall clock that is given. They do not model the conversion from device time to Asia/Kolkata time.
- SHA-256 is a map from input text to the hex digest. A missing entry stands for a failed digest call.
- String lengths count Unicode characters. JavaScript's `substring(0, 4096)` counts UTF-16 code units, so the two differ for text beyond the Basic Multilingual Plane.

**Symbols the modelled code uses but does not define**
- These become parameters or requested writes, and their behaviour is not invented:
  - the store's `triggerPanic`, `updateEventWhatsAppStatus`, `scheduledCheckIns`, `addScheduledCheckIn`, `appSettings`, `updateAppSettings` and `notificationPreferences`;
  - `getNextScheduledTime`, `formatTimeIST` and `formatDateIST`.
- The ledger client (`lib/solana/program.ts`) and the wallet wrappers are not part of this model.
  - `getSession` catches its own errors and returns null, so through it the null label of `checkOnChainStatus` cannot happen.
  - `Home.OnChainStatus` therefore takes the read outcome directly.
- The store's `events.find(...)?.location` is read from an event type that has no location field. The model gives the value JavaScript yields there, which is undefined.

**Scope cuts**
- `Home.ScanTick` models one scanner. The effect reinstalls the scanner with a fresh minute whenever its dependencies change, and that reinstall is not modelled.
- `EnvScript.RunScript`: the console text, `process.exit` and the reply parsing of the script's send are left out. Each send is an outcome parameter.
- `Sms.GenerateAlertMessage`: the default branch of the switch is unreachable for the three declared kinds and is not modelled.
- `WhatsApp.SendWhatsApp`: the token-expired telemetry on error code 190 is left out. That branch returns false like every other failure, and the model states this.
- `Ledger.Encode`: only the 91 field bytes are modelled. The 8-byte account discriminator that `init` also allocates is represented only by the `SPACE` constant.
- `Location.GetLocation`: `startLocationTracking` and `stopLocationTracking` keep a subscription for a callback, and are not modelled.
- `Rpc.GetProgramId`: base-58 decoding of the id is a parameter.
- Text.DecimalNumber: models `Number` only on blank text and on optionally signed runs of decimal digits. Every other text reads as NaN here, although JavaScript reads exponents (`1e1`), hexadecimal (`0x10`), fractions (`1.5`) and `Infinity` as numbers. Times saved through the scheduling form match its pattern, which admits none of those forms.
- DeadlineAgreesWithStoreOnlyAtFive: the if-and-only-if is stated only for a ledger call that takes no time, where both clock readings give the same instant. For separate readings, `CheckInHook.StoreDueMinusDeadline` gives the exact difference and `CheckInHook.SlowLedgerCallSplitsDeadline` shows a call of a second or more separates them even at five minutes.
- Ledger.StartCheckInIx: the bound `now + 86400` is computed in unbounded integers. The program adds in `i64`, which overflows only for a clock within 86400 seconds of 2^63.
- `Schedule.NextReminder`: the reminder is returned as a day offset and a minute of the day, not as a date.
- `Schedule.NextReminder`: a failure inside the notification library, which gives null in the source, is not modelled.

## Findings

| source | as written | input that shows it | evidently intended | confidence | as-written member | corrected member |
|---|---|---|---|---|---|---|
| app/flows/home.tsx:169-185 | the alert parameters from `generateAlertMessage` are passed as the `message` field of `sendWhatsApp`. `substring` then throws on the object, the exception is caught, and the send returns false every time. | a panic with WhatsApp enabled, a panic event, a set alert number, a set token and a reply carrying a message id: the event is still marked not delivered | pass them as `alertParams`, so the alert is rendered and sent | high (not executed) | Home.PanicWhatsAppNeverDelivered | Home.CorrectedPanicDelivered |
