/** The passcode prompt (src/components/PasscodePromptModal/PasscodePromptModal.tsx):
    its title and input fields per mode, when OK is enabled, and what a
    press of OK hands to the caller's `onSubmit`. */
module PasscodePromptModal {
  import opened Wrappers

  datatype Mode = SetMode | UpdateMode | DisableMode | VerifyMode

  /** The heading shown for each mode. */
  function Title(mode: Mode): string {
    match mode
    case SetMode => "Set Passcode"
    case UpdateMode => "Update Passcode"
    case DisableMode => "Disable Passcode"
    case VerifyMode => "Enter Passcode"
  }

  /** Each mode has its own heading. */
  lemma TitlesDiffer(a: Mode, b: Mode)
    requires a != b
    ensures Title(a) != Title(b)
  {
  }

  /** Which inputs are on screen: the current-passcode input (the
      "Enter passcode" input of verify mode is bound to the same state) and
      the new-passcode input. */
  predicate ShowsCurrent(mode: Mode) {
    mode == UpdateMode || mode == DisableMode || mode == VerifyMode
  }

  predicate ShowsNew(mode: Mode) {
    mode == SetMode || mode == UpdateMode
  }

  /** The OK button's `disabled` expression. */
  predicate OkDisabled(mode: Mode, busy: bool, current: string, next: string) {
    busy || (mode == SetMode && next == "") || (mode == UpdateMode && (current == "" || next == ""))
    || (mode == DisableMode && current == "") || (mode == VerifyMode && current == "")
  }

  /** OK asks for exactly the inputs on screen: when not busy it is disabled
      iff a visible input is empty. */
  lemma OkWaitsForVisibleInputs(mode: Mode, current: string, next: string)
    ensures OkDisabled(mode, false, current, next)
        <==> (ShowsCurrent(mode) && current == "") || (ShowsNew(mode) && next == "")
  {
  }

  /** What `onSubmit` receives: an empty input is passed as undefined. */
  datatype Params = Params(currentPasscode: Option<string>, newPasscode: Option<string>)

  function ParamsOf(current: string, next: string): (p: Params)
    ensures p.currentPasscode.None? <==> current == ""
    ensures p.newPasscode.None? <==> next == ""
    ensures p.currentPasscode.GetOr("") == current && p.newPasscode.GetOr("") == next
  {
    Params(if current != "" then Some(current) else None, if next != "" then Some(next) else None)
  }

  /** The prompt's own state. */
  datatype Prompt = Prompt(mode: Mode, current: string, next: string, busy: bool)

  /** Pressing OK: nothing while disabled; otherwise `onSubmit` is called
      with the parameters and `busy` is cleared again whether the callback
      resolves or throws (a thrown error is passed on). */
  function PressOk(p: Prompt, callback: Result<(), string>): (out: (Prompt, Option<Params>, Option<string>))
    ensures OkDisabled(p.mode, p.busy, p.current, p.next) ==> out == (p, None, None)
    ensures !OkDisabled(p.mode, p.busy, p.current, p.next) ==>
      out.0 == p.(busy := false) && out.1 == Some(ParamsOf(p.current, p.next))
      && (out.2.Some? <==> callback.Failure?)
  {
    if OkDisabled(p.mode, p.busy, p.current, p.next) then (p, None, None)
    else
      var raised := if callback.Failure? then Some(callback.error) else None;
      (p.(busy := false), Some(ParamsOf(p.current, p.next)), raised)
  }

  /** Whatever the mode, an accepted press hands over every visible input. */
  lemma PressedParamsCarryVisibleInputs(p: Prompt, callback: Result<(), string>)
    requires !OkDisabled(p.mode, p.busy, p.current, p.next)
    ensures var params := PressOk(p, callback).1.value;
      (ShowsCurrent(p.mode) ==> params.currentPasscode == Some(p.current))
      && (ShowsNew(p.mode) ==> params.newPasscode == Some(p.next))
  {
    OkWaitsForVisibleInputs(p.mode, p.current, p.next);
  }
}
