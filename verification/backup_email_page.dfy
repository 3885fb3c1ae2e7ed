/** The backup e-mail page (src/pages/BackupEmailPage/BackupEmailPage.tsx):
    which text it accepts as an address and what it saves. */
module BackupEmailPage {
  import opened Wrappers
  import opened Text
  import Api

  /** A piece of `[^\s@]+`. */
  predicate EmailPiece(s: string) {
    |s| > 0 && NoSpace(s) && '@' !in s
  }

  /** `^[^\s@]+@[^\s@]+\.[^\s@]+$`: some '@' and some later '.' cut the
      text into three pieces of that shape. */
  predicate MatchesEmailPattern(s: string) {
    exists i, k :: 0 <= i < k < |s| && s[i] == '@' && s[k] == '.'
      && EmailPiece(s[..i]) && EmailPiece(s[i + 1..k]) && EmailPiece(s[k + 1..])
  }

  /** A dot that is neither the first nor the last character. */
  predicate DotInside(d: string) {
    |d| >= 3 && '.' in d[1..|d| - 1]
  }

  /** The same test read directly off the text: no whitespace, one '@' that
      is not first, and a dot strictly inside the domain. */
  predicate IsEmail(s: string) {
    var i := IndexOf(s, '@');
    NoSpace(s) && 0 < i < |s| && '@' !in s[i + 1..] && DotInside(s[i + 1..])
  }

  /** Every character of a piece of `s` is a character of `s`. */
  lemma PieceChars(s: string, a: nat, b: nat)
    requires a <= b <= |s|
    ensures forall j :: 0 <= j < b - a ==> s[a..b][j] == s[a + j]
  {
  }

  lemma IsEmailMatches(s: string)
    requires IsEmail(s)
    ensures MatchesEmailPattern(s)
  {
    var i := IndexOf(s, '@');
    var d := s[i + 1..];
    var inner := d[1..|d| - 1];
    var k' := IndexOf(inner, '.') + 1;
    assert d[k'] == inner[k' - 1] == '.';
    var k := i + 1 + k';
    assert s[k] == '.';
    var p1, p2, p3 := s[..i], s[i + 1..k], s[k + 1..];
    PieceChars(s, 0, i);
    PieceChars(s, i + 1, k);
    PieceChars(s, k + 1, |s|);
    assert p1 == s[0..i] && p3 == s[k + 1..|s|];
    assert forall j :: i + 1 <= j < |s| ==> s[j] == d[j - i - 1];
    assert EmailPiece(p1);
    assert EmailPiece(p2);
    assert EmailPiece(p3);
  }

  /** Three pieces around an '@' and a '.' form an address. */
  lemma PiecesFormEmail(p1: string, p2: string, p3: string)
    requires EmailPiece(p1) && EmailPiece(p2) && EmailPiece(p3)
    ensures IsEmail(p1 + ['@'] + p2 + ['.'] + p3)
  {
    var s := p1 + ['@'] + p2 + ['.'] + p3;
    NoSpaceConcat(p1, ['@']);
    NoSpaceConcat(p1 + ['@'], p2);
    NoSpaceConcat(p1 + ['@'] + p2, ['.']);
    NoSpaceConcat(p1 + ['@'] + p2 + ['.'], p3);
    IndexOfAfter(p1, '@', p2 + ['.'] + p3);
    assert s == p1 + ['@'] + (p2 + ['.'] + p3);
    var d := p2 + ['.'] + p3;
    assert s[|p1| + 1..] == d;
    assert '@' !in d;
    assert d[1..|d| - 1][|p2| - 1] == '.';
  }

  lemma MatchesIsEmail(s: string)
    requires MatchesEmailPattern(s)
    ensures IsEmail(s)
  {
    var i, k :| 0 <= i < k < |s| && s[i] == '@' && s[k] == '.'
      && EmailPiece(s[..i]) && EmailPiece(s[i + 1..k]) && EmailPiece(s[k + 1..]);
    assert s == s[..i] + ['@'] + s[i + 1..k] + ['.'] + s[k + 1..];
    PiecesFormEmail(s[..i], s[i + 1..k], s[k + 1..]);
  }

  /** The pattern accepts exactly the texts `IsEmail` describes. */
  lemma EmailPatternIff(s: string)
    ensures MatchesEmailPattern(s) <==> IsEmail(s)
  {
    if IsEmail(s) { IsEmailMatches(s); }
    if MatchesEmailPattern(s) { MatchesIsEmail(s); }
  }

  /** An accepted address has one '@', no whitespace, and a dot strictly
      inside its domain. */
  lemma AcceptedEmailShape(s: string)
    requires MatchesEmailPattern(s)
    ensures NoSpace(s)
    ensures var i := IndexOf(s, '@'); 0 < i < |s| && '@' !in s[..i] && '@' !in s[i + 1..]
    ensures DotInside(s[IndexOf(s, '@') + 1..])
  {
    EmailPatternIff(s);
    var i := IndexOf(s, '@');
    assert forall j :: 0 <= j < i ==> s[..i][j] == s[j];
  }

  const InvalidEmailAlert := "Please enter a valid email address."
  const SaveFailedAlert := "Failed to save backup email. Please try again."

  /** `{ backupEmail: trimmedEmail || null }`. */
  function BackupEmailPayload(trimmed: string): Api.Json {
    Api.JObj([("backupEmail", if trimmed != "" then Api.JStr(trimmed) else Api.JNull)])
  }

  datatype SaveResult = SaveResult(
    request: Option<Api.Request>, alert: Option<string>, popup: Option<string>,
    toSettings: bool, isSaving: bool)

  /** `handleSave`: the trimmed text is rejected with an alert when it is
      non-empty and not an address; otherwise it is saved (empty text
      removes the address), and `isSaving` is false again afterwards. */
  function HandleSave(email: string, answer: Result<(), string>): (r: SaveResult)
    ensures !r.isSaving
    ensures r.request.Some? <==> Trim(email) == "" || MatchesEmailPattern(Trim(email))
    ensures r.request.None? ==> r.alert == Some(InvalidEmailAlert) && !r.toSettings
    ensures r.request.Some? ==> r.request.value == Api.UpdatePreferencesRequest(BackupEmailPayload(Trim(email)))
    ensures r.toSettings <==> r.request.Some? && answer.Success?
    ensures r.request.Some? && answer.Failure? ==> r.alert == Some(SaveFailedAlert)
    ensures r.toSettings ==>
      r.popup == Some(if Trim(email) != "" then "Email saved successfully." else "Email removed successfully.")
  {
    var trimmed := Trim(email);
    EmailPatternIff(trimmed);
    if trimmed != "" && !IsEmail(trimmed) then
      SaveResult(None, Some(InvalidEmailAlert), None, false, false)
    else
      var req := Some(Api.UpdatePreferencesRequest(BackupEmailPayload(trimmed)));
      match answer
      case Success(_) =>
        var msg := if trimmed != "" then "Email saved successfully." else "Email removed successfully.";
        SaveResult(req, None, Some(msg), true, false)
      case Failure(_) => SaveResult(req, Some(SaveFailedAlert), None, false, false)
  }

  /** Whatever is saved is either null or a trimmed, accepted address. */
  lemma SavedValueIsAddressOrNull(email: string, answer: Result<(), string>)
    requires HandleSave(email, answer).request.Some?
    ensures var value := BackupEmailPayload(Trim(email)).fields[0].1;
      value == Api.JNull || (value.JStr? && Trim(value.s) == value.s && MatchesEmailPattern(value.s))
  {
    TrimIdempotent(email);
  }
}
