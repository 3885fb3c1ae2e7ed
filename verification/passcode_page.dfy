/** The passcode settings page (src/pages/PasscodePage/PasscodePage.tsx):
    setting a first passcode, changing it, and disabling it through the
    passcode prompt. The preferences call's outcome is an input. */
module PasscodePage {
  import opened Wrappers
  import opened Text
  import Api

  datatype Page = Page(
    enabled: bool, current: string, newPasscode: string, confirm: string,
    busy: bool, showDisableModal: bool, disableError: Option<string>)

  /** A six-character new passcode typed twice. */
  predicate NewPasscodeOk(newPasscode: string, confirm: string) {
    newPasscode != "" && |newPasscode| == 6 && newPasscode == confirm
  }

  predicate CurrentPasscodeOk(current: string) {
    current != "" && |current| == 6
  }

  const CurrentPasscodeAlert := "Please enter your current passcode."

  /** `{ setPasscode: { newPasscode } }`, with the current passcode first
      when changing an enabled passcode. */
  function SetPasscodePayload(current: Option<string>, newPasscode: string): Api.Json {
    var inner := if current.Some? then [("currentPasscode", Api.JStr(current.value))] else [];
    Api.JObj([("setPasscode", Api.JObj(inner + [("newPasscode", Api.JStr(newPasscode))]))])
  }

  /** What `handleSave` decides before any call is made. */
  datatype SavePlan = Skip | AlertCurrent | SendUpdate(payload: Api.Json)

  function PlanSave(p: Page): (r: SavePlan)
    ensures p.busy ==> r == Skip
    ensures r.SendUpdate? ==> NewPasscodeOk(p.newPasscode, p.confirm)
    ensures r == AlertCurrent <==> !p.busy && p.enabled && !CurrentPasscodeOk(p.current)
    ensures r.SendUpdate? && !p.enabled ==> r.payload == SetPasscodePayload(None, p.newPasscode)
    ensures r.SendUpdate? && p.enabled ==>
      CurrentPasscodeOk(p.current) && r.payload == SetPasscodePayload(Some(p.current), p.newPasscode)
  {
    if p.busy then Skip
    else if !p.enabled then
      if !NewPasscodeOk(p.newPasscode, p.confirm) then Skip
      else SendUpdate(SetPasscodePayload(None, p.newPasscode))
    else if !CurrentPasscodeOk(p.current) then AlertCurrent
    else if !NewPasscodeOk(p.newPasscode, p.confirm) then Skip
    else SendUpdate(SetPasscodePayload(Some(p.current), p.newPasscode))
  }

  /** The Save button's `disabled` expression. */
  predicate SaveDisabled(p: Page) {
    p.busy || p.newPasscode == "" || |p.newPasscode| != 6 || p.newPasscode != p.confirm
    || (p.enabled && (p.current == "" || |p.current| != 6))
  }

  /** The button and the handler agree: Save is enabled exactly when a click
      sends the update. */
  lemma SaveButtonMatchesGuards(p: Page)
    ensures !SaveDisabled(p) <==> PlanSave(p).SendUpdate?
  {
  }

  /** The result of one click on Save. */
  datatype SaveOutcome = SaveOutcome(page: Page, request: Option<Api.Request>, alert: Option<string>, toSettings: bool)

  /** `handleSave` with the update's outcome: on success the page goes back
      to the settings, on failure the server's message (or "Failed to update
      passcode") is shown; `busy` is clear afterwards either way. */
  function HandleSave(p: Page, answer: Result<(), string>): (o: SaveOutcome)
    ensures p.busy ==> o == SaveOutcome(p, None, None, false)
    ensures !p.busy ==> o.page == p
    ensures o.request.Some? <==> PlanSave(p).SendUpdate?
    ensures o.request.Some? ==> o.request.value == Api.UpdatePreferencesRequest(PlanSave(p).payload)
    ensures o.toSettings <==> o.request.Some? && answer.Success?
    ensures PlanSave(p) == AlertCurrent ==> o.alert == Some(CurrentPasscodeAlert)
    ensures o.request.Some? && answer.Failure? ==>
      o.alert == Some(Or(answer.error, "Failed to update passcode"))
    ensures PlanSave(p) == Skip || (o.request.Some? && answer.Success?) ==> o.alert.None?
  {
    match PlanSave(p)
    case Skip => if p.busy then SaveOutcome(p, None, None, false) else SaveOutcome(p.(busy := false), None, None, false)
    case AlertCurrent => SaveOutcome(p.(busy := false), None, Some(CurrentPasscodeAlert), false)
    case SendUpdate(payload) =>
      var req := Some(Api.UpdatePreferencesRequest(payload));
      if answer.Success? then SaveOutcome(p.(busy := false), req, None, true)
      else SaveOutcome(p.(busy := false), req, Some(Or(answer.error, "Failed to update passcode")), false)
  }

  /** `handleDisable`: with nothing to disable, or while busy, straight back
      to the settings; otherwise the prompt opens with no error shown. */
  function HandleDisable(p: Page): (out: (Page, bool))
    ensures out.1 <==> p.busy || !p.enabled
    ensures out.1 ==> out.0 == p
    ensures !out.1 ==> out.0 == p.(showDisableModal := true, disableError := None)
  {
    if p.busy || !p.enabled then (p, true)
    else (p.(disableError := None, showDisableModal := true), false)
  }

  /** `{ disablePasscode: { currentPasscode } }`; an undefined passcode is
      dropped from the body. */
  function DisablePayload(currentPasscode: Option<string>): (j: Api.Json)
    ensures j.JObj? && |j.fields| == 1 && j.fields[0].0 == "disablePasscode"
    ensures currentPasscode.Some? ==> j.fields[0].1 == Api.JObj([("currentPasscode", Api.JStr(currentPasscode.value))])
    ensures currentPasscode.None? ==> j.fields[0].1 == Api.JObj([])
  {
    var field := [("currentPasscode", Api.StrField(currentPasscode))];
    assert field[1..] == [];
    assert Api.OptFields(field[1..]) == [];
    assert currentPasscode.Some? ==> Api.OptFields(field) == [("currentPasscode", Api.JStr(currentPasscode.value))];
    Api.JObj([("disablePasscode", Api.JObj(Api.OptFields(field)))])
  }

  /** Submitting the disable prompt: on success the prompt closes and the
      page returns to the settings; on failure it stays open with the
      server's message, or "Invalid passcode". */
  function SubmitDisable(p: Page, currentPasscode: Option<string>, answer: Result<(), string>)
    : (out: (Page, Api.Request, bool))
    ensures out.1 == Api.UpdatePreferencesRequest(DisablePayload(currentPasscode))
    ensures out.2 <==> answer.Success?
    ensures answer.Success? ==> out.0 == p.(showDisableModal := false, disableError := None)
    ensures answer.Failure? ==> out.0 == p.(disableError := Some(Or(answer.error, "Invalid passcode")))
    ensures answer.Failure? ==> out.0.showDisableModal == p.showDisableModal && out.0.disableError.value != ""
  {
    var req := Api.UpdatePreferencesRequest(DisablePayload(currentPasscode));
    if answer.Success? then (p.(showDisableModal := false, disableError := None), req, true)
    else (p.(disableError := Some(Or(answer.error, "Invalid passcode"))), req, false)
  }
}
