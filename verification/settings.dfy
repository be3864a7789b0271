/** The safety part of the settings screen (app/flows/settings/index.tsx):
    editing the check-in duration and the user's own phone number. The store's
    `updateAppSettings` is not part of this model: a handler's effect on the
    settings is the write it requests. */
module SettingsScreen {
  import opened Wrappers
  import opened Text
  import Schedule

  /** The two settings this part of the screen edits. */
  datatype AppSettings = AppSettings(checkInDurationMinutes: nat, userPhoneNumber: Option<string>)

  /** The screen's local state: which editor is open, the text in each and
      the saving flag the two editors share. */
  datatype Form = Form(showDurationInput: bool, durationInput: string, showPhoneInput: bool, phoneInput: string,
                       isSaving: bool)

  /** A write requested from `updateAppSettings`. */
  datatype Update = SetDuration(minutes: int) | SetPhone(phone: Option<string>)

  /** What a handler did: the form afterwards, the write it requested, and
      whether it showed the invalid-duration alert. */
  datatype Step = Step(form: Form, write: Option<Update>, invalidAlert: bool)

  /** The duration text shown for a setting: the minutes in decimal. */
  function DurationText(s: AppSettings): string {
    NatToString(s.checkInDurationMinutes)
  }

  /** The phone text shown for a setting: the number, or empty. */
  function PhoneText(s: AppSettings): string {
    OrElse(s.userPhoneNumber, "")
  }

  // ---------------------------------------------------------------------------
  // The duration editor

  /** Pressing the duration item: when closed, the editor opens with the
      current minutes; when open, nothing changes. */
  function OpenDuration(f: Form, s: AppSettings): (g: Form)
    ensures g.showDurationInput
    ensures !f.showDurationInput ==> g.durationInput == DurationText(s) && g == f.(showDurationInput := true, durationInput := g.durationInput)
    ensures f.showDurationInput ==> g == f
  {
    if f.showDurationInput then f else f.(showDurationInput := true, durationInput := DurationText(s))
  }

  /** The duration rule: `parseInt(input, 10)` between 1 and 60. */
  predicate DurationInRange(input: string) {
    var m := ParseInt(input);
    m.Some? && 1 <= m.value && m.value <= 60
  }

  /** Saving the duration. While saving nothing happens. Otherwise a whole
      number of minutes from 1 to 60 is written and the editor closes; any
      other text, `NaN` included, writes nothing, keeps the editor open and
      shows the alert. The saving flag ends cleared either way. */
  function SaveDuration(f: Form): (st: Step)
    ensures f.isSaving ==> st == Step(f, None, false)
    ensures !f.isSaving ==> (st.write.Some? <==> DurationInRange(f.durationInput))
    ensures !f.isSaving ==> (st.invalidAlert <==> !DurationInRange(f.durationInput))
    ensures st.write.Some? ==> && st.write.value.SetDuration?
                               && 1 <= st.write.value.minutes <= 60
                               && ParseInt(f.durationInput) == Some(st.write.value.minutes)
                               && !st.form.showDurationInput
    ensures !f.isSaving && st.write.None? ==> st.form == f
    ensures !f.isSaving ==> !st.form.isSaving
  {
    if f.isSaving then Step(f, None, false)
    else
      var minutes := ParseInt(f.durationInput);
      if minutes.Some? && minutes.value >= 1 && minutes.value <= 60 then
        Step(f.(showDurationInput := false, isSaving := false), Some(SetDuration(minutes.value)), false)
      else
        Step(f.(isSaving := false), None, true)
  }

  /** Cancelling the duration editor: it closes and its text is reset to the
      current minutes, with nothing written. */
  function CancelDuration(f: Form, s: AppSettings): (g: Form)
    ensures !g.showDurationInput && g.durationInput == DurationText(s)
    ensures g.(showDurationInput := f.showDurationInput, durationInput := f.durationInput) == f
  {
    f.(showDurationInput := false, durationInput := DurationText(s))
  }

  /** The settings screen accepts exactly the durations the scheduled
      check-in form accepts. */
  lemma SameDurationRuleAsSchedule(input: string)
    ensures DurationInRange(input) <==> Schedule.DurationAccepted(input)
  {
  }

  /** Opening the editor and saving at once writes the current duration
      back when it lies in range, and otherwise writes nothing. */
  lemma SavingUnchangedDurationKeepsIt(f: Form, s: AppSettings)
    requires !f.isSaving && !f.showDurationInput
    ensures var st := SaveDuration(OpenDuration(f, s));
            && (1 <= s.checkInDurationMinutes <= 60 ==> st.write == Some(SetDuration(s.checkInDurationMinutes)))
            && (s.checkInDurationMinutes == 0 || s.checkInDurationMinutes > 60 ==> st.write.None?)
  {
    ParseIntRendered(s.checkInDurationMinutes, "");
    assert IntToString(s.checkInDurationMinutes) + "" == DurationText(s);
  }

  // ---------------------------------------------------------------------------
  // The phone editor

  /** Pressing the phone item: when closed, the editor opens with the
      current number or empty text; when open, nothing changes. */
  function OpenPhone(f: Form, s: AppSettings): (g: Form)
    ensures g.showPhoneInput
    ensures !f.showPhoneInput ==> g.phoneInput == PhoneText(s) && g == f.(showPhoneInput := true, phoneInput := g.phoneInput)
    ensures f.showPhoneInput ==> g == f
  {
    if f.showPhoneInput then f else f.(showPhoneInput := true, phoneInput := PhoneText(s))
  }

  /** Saving the phone number. While saving nothing happens. Otherwise the
      trimmed text is written when it is not blank, and `null` when it is;
      the editor closes and the saving flag ends cleared. */
  function SavePhone(f: Form): (st: Step)
    ensures f.isSaving ==> st == Step(f, None, false)
    ensures !f.isSaving ==> && st.write.Some? && st.write.value.SetPhone?
                            && !st.form.showPhoneInput && !st.form.isSaving && !st.invalidAlert
    ensures !f.isSaving && IsBlank(f.phoneInput) ==> st.write == Some(SetPhone(None))
    ensures !f.isSaving && !IsBlank(f.phoneInput) ==> st.write == Some(SetPhone(Some(Trim(f.phoneInput))))
  {
    if f.isSaving then Step(f, None, false)
    else
      var write := if Trim(f.phoneInput) != "" then SetPhone(Some(Trim(f.phoneInput))) else SetPhone(None);
      Step(f.(showPhoneInput := false, isSaving := false), Some(write), false)
  }

  /** Cancelling the phone editor: it closes and its text is reset to the
      current number, with nothing written. */
  function CancelPhone(f: Form, s: AppSettings): (g: Form)
    ensures !g.showPhoneInput && g.phoneInput == PhoneText(s)
    ensures g.(showPhoneInput := f.showPhoneInput, phoneInput := f.phoneInput) == f
  {
    f.(showPhoneInput := false, phoneInput := PhoneText(s))
  }

  /** A saved number is never blank and never has white space at either
      end: saving it again writes it unchanged. */
  lemma SavedPhoneIsTrimmed(f: Form)
    requires !f.isSaving
    ensures var st := SavePhone(f);
            st.write.value.phone.Some? ==>
              && !IsBlank(st.write.value.phone.value)
              && SavePhone(f.(phoneInput := st.write.value.phone.value)).write == st.write
  {
    TrimIdempotent(f.phoneInput);
  }

  /** Opening the editor and saving at once keeps a trimmed number, and
      turns a missing or empty number into `null`. */
  lemma SavingUnchangedPhoneKeepsIt(f: Form, s: AppSettings)
    requires !f.isSaving && !f.showPhoneInput
    requires s.userPhoneNumber.Some? ==> Trim(s.userPhoneNumber.value) == s.userPhoneNumber.value
    ensures var st := SavePhone(OpenPhone(f, s));
            && (Truthy(s.userPhoneNumber) ==> st.write == Some(SetPhone(s.userPhoneNumber)))
            && (!Truthy(s.userPhoneNumber) ==> st.write == Some(SetPhone(None)))
  {
    if !Truthy(s.userPhoneNumber) {
      assert PhoneText(s) == "";
      assert Trim("") == "";
    }
  }
}
