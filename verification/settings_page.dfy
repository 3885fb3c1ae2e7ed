/** The settings page (src/pages/SettingsPage/SettingsPage.tsx): the masked
    backup address, the wallet-count label, and the Export Recovery Phrase
    button with its passcode prompt. */
module SettingsPage {
  import opened Wrappers
  import opened Text
  import opened Seqs
  import Api
  import BackupEmailPage

  /** The text before the first '@' (all of it without one). */
  function LocalPart(e: string): string {
    e[..IndexOf(e, '@')]
  }

  /** The text between the first and the second '@'; "" without an '@'. */
  function DomainOf(e: string): string {
    var i := IndexOf(e, '@');
    if i < |e| then
      var rest := e[i + 1..];
      rest[..IndexOf(rest, '@')]
    else ""
  }

  /** The first two pieces of `split('@')` are the local part and the domain. */
  lemma SplitAtSign(e: string)
    ensures Split(e, '@')[0] == LocalPart(e)
    ensures SplitPart(e, '@', 1) == DomainOf(e)
  {
    var i := IndexOf(e, '@');
    if i < |e| {
      var rest := e[i + 1..];
      assert Split(e, '@') == [e[..i]] + Split(rest, '@');
      assert Split(rest, '@')[0] == rest[..IndexOf(rest, '@')];
    } else {
      assert e[..i] == e;
    }
  }

  /** `maskedEmail`: at most two characters of the local part, "***" when
      more are hidden, then the domain; "" when either part is missing. */
  function MaskEmail(backupEmail: string): (r: string)
    ensures r == "" <==> LocalPart(backupEmail) == "" || DomainOf(backupEmail) == ""
    ensures r != "" ==>
      r == Take(LocalPart(backupEmail), 2) + (if |LocalPart(backupEmail)| > 2 then "***" else "")
           + "@" + DomainOf(backupEmail)
  {
    SplitAtSign(backupEmail);
    var local := Split(backupEmail, '@')[0];
    var domain := SplitPart(backupEmail, '@', 1);
    if local == "" || domain == "" then ""
    else Take(local, 2) + (if |local| > 2 then "***" else "") + "@" + domain
  }

  /** The mask depends on the local part only through its first two
      characters and whether it is longer than two. */
  lemma MaskHidesLocalPart(l1: string, l2: string, d: string)
    requires '@' !in l1 && '@' !in l2
    requires |l1| > 2 && |l2| > 2 && l1[..2] == l2[..2]
    ensures MaskEmail(l1 + "@" + d) == MaskEmail(l2 + "@" + d)
  {
    IndexOfAfter(l1, '@', d);
    IndexOfAfter(l2, '@', d);
    assert (l1 + "@" + d)[|l1| + 1..] == d;
    assert (l2 + "@" + d)[|l2| + 1..] == d;
    assert LocalPart(l1 + "@" + d) == l1;
    assert LocalPart(l2 + "@" + d) == l2;
  }

  /** Every address the backup page accepts masks to a non-empty text that
      keeps its whole domain. */
  lemma SavedEmailMasks(e: string)
    requires BackupEmailPage.MatchesEmailPattern(e)
    ensures MaskEmail(e) != ""
    ensures DomainOf(e) == e[IndexOf(e, '@') + 1..]
  {
    BackupEmailPage.AcceptedEmailShape(e);
    var i := IndexOf(e, '@');
    var rest := e[i + 1..];
    assert IndexOf(rest, '@') == |rest|;
    assert rest[..|rest|] == rest;
  }

  /** "N wallet" with an "s" unless N is exactly 1. */
  function WalletCountLabel(n: nat): (r: string)
    ensures |r| > 0 && (r[|r| - 1] == 's' <==> n != 1)
    ensures |NatToString(n)| < |r| && r[..|NatToString(n)|] == NatToString(n)
  {
    NatToString(n) + " wallet" + (if n != 1 then "s" else "")
  }

  // ---- Export Recovery Phrase -----------------------------------------------

  datatype ExportView = ExportView(
    exporting: bool, showVerify: bool, verifyError: Option<string>,
    mnemonic: Option<string>, showSeed: bool)

  const ExportFailedAlert := "Failed to export recovery phrase."

  /** The seed modal is rendered only with a non-empty phrase. */
  predicate SeedModalShown(v: ExportView) {
    v.showSeed && v.mnemonic.Some? && v.mnemonic.value != ""
  }

  /** A click on Export Recovery Phrase: ignored while exporting; with a
      passcode set it only opens the passcode prompt; otherwise it asks for
      the phrase without a passcode. Returns the view, the request made and
      the alert shown. */
  function ExportClick(v: ExportView, passcodeEnabled: bool, answer: Result<string, string>)
    : (out: (ExportView, Option<Api.Request>, Option<string>))
    ensures v.exporting ==> out == (v, None, None)
    ensures !v.exporting ==> !out.0.exporting
    ensures out.1.Some? <==> !v.exporting && !passcodeEnabled
    ensures out.1.Some? ==> out.1.value == Api.ExportSeedRequest("")
    ensures !v.exporting && passcodeEnabled ==>
      out.0 == v.(showVerify := true, verifyError := None) && out.2.None?
    ensures out.1.Some? && answer.Success? ==>
      out.0 == v.(mnemonic := Some(answer.value), showSeed := true) && out.2.None?
    ensures out.1.Some? && answer.Failure? ==> out.0 == v && out.2 == Some(ExportFailedAlert)
  {
    if v.exporting then (v, None, None)
    else if passcodeEnabled then (v.(verifyError := None, showVerify := true), None, None)
    else
      var req := Some(Api.ExportSeedRequest(""));
      match answer
      case Success(m) => (v.(mnemonic := Some(m), showSeed := true), req, None)
      case Failure(_) => (v, req, Some(ExportFailedAlert))
  }

  /** Submitting the passcode prompt: the phrase is requested with the
      passcode; on failure the prompt stays open with the message or
      "Invalid passcode". */
  function VerifySubmit(v: ExportView, currentPasscode: Option<string>, answer: Result<string, string>)
    : (out: (ExportView, Api.Request))
    ensures out.1 == Api.ExportSeedRequest(currentPasscode.GetOr(""))
    ensures answer.Success? ==>
      out.0 == v.(mnemonic := Some(answer.value), showSeed := true, showVerify := false, verifyError := None)
    ensures answer.Failure? ==>
      out.0 == v.(verifyError := Some(Or(answer.error, "Invalid passcode"))) && out.0.verifyError.value != ""
  {
    var req := Api.ExportSeedRequest(currentPasscode.GetOr(""));
    match answer
    case Success(m) => (v.(mnemonic := Some(m), showSeed := true, showVerify := false, verifyError := None), req)
    case Failure(e) => (v.(verifyError := Some(Or(e, "Invalid passcode"))), req)
  }

  /** With a passcode set, the phrase is only ever requested with a
      passcode in the body. */
  lemma ExportNeedsPasscodeWhenEnabled(v: ExportView, answer: Result<string, string>, passcode: string)
    requires passcode != ""
    ensures ExportClick(v, true, answer).1.None?
    ensures VerifySubmit(v, Some(passcode), answer).1.body
         == Some(Api.JObj([("passcode", Api.JStr(passcode))]))
  {
  }
}
