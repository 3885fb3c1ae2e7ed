/** The send form (src/components/SendAssetSheet/SendAssetSheet.tsx): the
    filter on the amount text, the validation memo that enables the Send
    button, the Max button and the arguments handed to the store's
    `sendTransfer`. `parseFloat(amt)` is an input (`amount`), as are the
    store wallets and the XRP account info. */
module SendAssetSheet {
  import opened Wrappers
  import opened Text
  import opened Seqs
  import opened StoreTables
  import MinSend

  // ---- amount text ---------------------------------------------------------

  /** `^\d*\.?\d*$` read left to right: digits, at most one dot, digits. */
  function ScanAmount(s: string, afterDot: bool): bool
    decreases |s|
  {
    if |s| == 0 then true
    else if IsDigit(s[0]) then ScanAmount(s[1..], afterDot)
    else if s[0] == '.' && !afterDot then ScanAmount(s[1..], true)
    else false
  }

  /** Only digits and dots, and no two dots. */
  predicate DecimalShape(s: string) {
    (forall i :: 0 <= i < |s| ==> IsDigit(s[i]) || s[i] == '.')
    && (forall i, j :: 0 <= i < j < |s| && s[i] == '.' ==> s[j] != '.')
  }

  /** The scanner accepts exactly the decimal shapes (with no dot at all
      once a dot has been read). */
  lemma {:induction false} ScanAmountIff(s: string, afterDot: bool)
    ensures ScanAmount(s, afterDot) <==> DecimalShape(s) && (afterDot ==> '.' !in s)
    decreases |s|
  {
    if |s| > 0 {
      var t := s[1..];
      assert s == [s[0]] + t;
      ScanAmountIff(t, afterDot);
      ScanAmountIff(t, true);
      if DecimalShape(s) {
        assert DecimalShape(t) by {
          forall i, j | 0 <= i < j < |t| && t[i] == '.' ensures t[j] != '.' {
            assert s[i + 1] == '.';
          }
        }
        if s[0] == '.' {
          forall j | 0 <= j < |t| ensures t[j] != '.' {
            assert s[j + 1] == t[j];
          }
        }
      }
      if IsDigit(s[0]) && DecimalShape(t) {
        forall i, j | 0 <= i < j < |s| && s[i] == '.' ensures s[j] != '.' {
          assert t[i - 1] == '.';
        }
      }
      if s[0] == '.' && !afterDot && DecimalShape(t) && '.' !in t {
        forall i, j | 0 <= i < j < |s| && s[i] == '.' ensures s[j] != '.' {
          assert s[j] == t[j - 1];
        }
      }
    }
  }

  /** Digits after the dot, 0 without a dot. */
  function FractionLength(s: string): nat {
    var k := IndexOf(s, '.');
    if k < |s| then |s| - k - 1 else 0
  }

  /** The texts the amount field can hold. */
  predicate AcceptableAmount(s: string) {
    s == "" || (DecimalShape(s) && !StartsWith(s, "00") && FractionLength(s) <= 8)
  }

  /** In a decimal shape, `split('.')` has two pieces exactly when there is
      a dot, and the second is the fraction. */
  lemma SplitAmount(s: string)
    requires DecimalShape(s)
    ensures var parts := Split(s, '.');
      (|parts| == 2 && |parts[1]| > 8) <==> FractionLength(s) > 8
  {
    var k := IndexOf(s, '.');
    if k < |s| {
      var a, b := s[..k], s[k + 1..];
      assert s == a + ['.'] + b;
      assert '.' !in b by {
        forall j | 0 <= j < |b| ensures b[j] != '.' {
          assert s[k + 1 + j] == b[j];
        }
      }
      SplitTwo(a, '.', b);
    } else {
      SplitNoSep(s, '.');
    }
  }

  /** `handleAmountChange`: the new text is taken exactly when it is
      acceptable, otherwise the field keeps its text; so typing alone never
      leaves unacceptable text in the field. The Max button writes the field
      without this filter (see `MaxClick`). */
  function HandleAmountChange(amt: string, value: string): (r: string)
    ensures r == (if AcceptableAmount(value) then value else amt)
    ensures AcceptableAmount(amt) ==> AcceptableAmount(r)
  {
    if value == "" then value
    else if ScanAmount(value, false) then
      ScanAmountIff(value, false);
      SplitAmount(value);
      if StartsWith(value, "00") then amt
      else
        var decimalParts := Split(value, '.');
        if |decimalParts| == 2 && |decimalParts[1]| > 8 then amt
        else value
    else
      ScanAmountIff(value, false);
      amt
  }

  // ---- validation ----------------------------------------------------------

  /** The fields of the asset the sheet sends. */
  datatype Asset = Asset(id: string, symbol: string, balance: real)

  datatype Validation = Validation(
    isValid: bool, hasValidAddress: bool, hasValidAmount: bool, meetsMin: bool,
    minRequired: real, hasInsufficientBalance: bool, hasZeroBalance: bool,
    hasInvalidNumber: bool, amount: JsNumber, needsTrxForFees: bool,
    hasTrxForFees: bool, isXrp: bool, exceedsSpendable: bool)

  /** `trxBalance`: the balance of the first tron wallet, 0 without one. */
  function TrxBalance(wallets: seq<WalletItem>): (r: real)
    ensures (forall w :: w in wallets ==> w.chain != "tron") ==> r == 0.0
    ensures forall i :: (0 <= i < |wallets| && wallets[i].chain == "tron"
      && (forall j :: 0 <= j < i ==> wallets[j].chain != "tron")) ==> r == wallets[i].balance
  {
    if |wallets| == 0 then 0.0
    else if wallets[0].chain == "tron" then wallets[0].balance
    else
      var r := TrxBalance(wallets[1..]);
      assert forall i :: 1 <= i < |wallets| ==> wallets[i] == wallets[1..][i - 1];
      r
  }

  /** The validation memo as written. `xrpSpendable` is `None` until the XRP
      account info has loaded, and then `Number(spendableXrp || 0)`. */
  function Validate(env: MinSend.Env, asset: Asset, to: string, amt: string, amount: JsNumber,
                    trxBalance: real, xrpSpendable: Option<real>): (v: Validation)
    ensures v.amount == amount
    ensures v.isValid <==>
      Trim(to) != "" && v.meetsMin && !v.hasInsufficientBalance && asset.balance != 0.0
      && v.hasTrxForFees && !v.exceedsSpendable
    ensures v.hasValidAddress <==> Trim(to) != ""
    ensures v.hasZeroBalance <==> asset.balance == 0.0
    ensures v.hasInsufficientBalance <==> v.hasValidAmount && amount.Finite? && amount.value > asset.balance
    ensures v.isXrp <==> Lower(asset.id) == "xrp"
    ensures v.meetsMin <==> |amt| > 0 && amount.Finite? && amount.value >= v.minRequired
    ensures v.hasValidAmount <==> |amt| > 0 && amount.Finite? && amount.value > 0.0
    ensures v.hasInvalidNumber <==> |amt| > 0 && !v.hasValidAmount
    ensures v.hasInsufficientBalance ==> v.hasValidAmount
    ensures v.minRequired >= 0.0
    ensures v.needsTrxForFees <==> Lower(asset.id) == "usdt-trc20"
    ensures v.hasTrxForFees <==> !v.needsTrxForFees || trxBalance > 0.0
    ensures !(Lower(asset.id) == "xrp" && xrpSpendable.Some?) ==> !v.exceedsSpendable
    ensures Lower(asset.id) == "xrp" && xrpSpendable.Some? ==>
      (v.exceedsSpendable <==> amount.Above(xrpSpendable.value))
    ensures v.isValid ==>
      Trim(to) != "" && amount.Finite? && amount.value >= v.minRequired
      && asset.balance != 0.0 && (amount.value > 0.0 ==> amount.value <= asset.balance)
      && (v.needsTrxForFees ==> trxBalance > 0.0)
      && (Lower(asset.id) == "xrp" && xrpSpendable.Some? ==> amount.value <= xrpSpendable.value)
  {
    var isXrp := Lower(asset.id) == "xrp";
    var hasValidAddress := Trim(to) != "";
    var minRequired := MinSend.GetMinSendForSymbol(env, asset.symbol);
    var meetsMin := |amt| > 0 && !amount.NaN? && amount.AtLeast(minRequired) && amount.Finite?;
    var hasValidAmount := |amt| > 0 && !amount.NaN? && amount.Above(0.0) && amount.Finite?;
    var hasInsufficientBalance := hasValidAmount && amount.Above(asset.balance);
    var hasZeroBalance := asset.balance == 0.0;
    var hasInvalidNumber := |amt| > 0 && (amount.NaN? || !amount.Above(0.0) || !amount.Finite?);
    var needsTrxForFees := Lower(asset.id) == "usdt-trc20";
    var hasTrxForFees := !needsTrxForFees || trxBalance > 0.0;
    var exceedsSpendable := if isXrp && xrpSpendable.Some? then amount.Above(xrpSpendable.value) else false;
    Validation(
      hasValidAddress && meetsMin && !hasInsufficientBalance && !hasZeroBalance
        && hasTrxForFees && !exceedsSpendable,
      hasValidAddress, hasValidAmount, meetsMin, minRequired, hasInsufficientBalance,
      hasZeroBalance, hasInvalidNumber, amount, needsTrxForFees, hasTrxForFees,
      isXrp, exceedsSpendable)
  }

  /** An amount of zero passes the check as written for every symbol
      without a configured minimum, such as XRP, while the same memo flags
      it as an invalid number. */
  lemma ZeroAmountAccepted(env: MinSend.Env)
    ensures var v := Validate(env, Asset("xrp", "XRP", 5.0), "addr", "0", Finite(0.0), 0.0, Some(5.0));
      v.isValid && v.hasInvalidNumber
  {
    XrpFacts(env);
  }

  /** The facts about the sample XRP asset and address that the examples use. */
  lemma XrpFacts(env: MinSend.Env)
    ensures Lower("xrp") == "xrp" && Trim("addr") == "addr"
    ensures MinSend.GetMinSendForSymbol(env, "XRP") == 0.0
  {
    assert Upper("XRP") == "XRP";
    assert !IsSpace('a') && !IsSpace('r');
    assert TrimStart("addr") == "addr";
    assert TrimEnd("addr") == "addr";
  }

  /** The validation the Send button is meant to use: also a strictly
      positive amount. */
  function IntendedValidate(env: MinSend.Env, asset: Asset, to: string, amt: string, amount: JsNumber,
                            trxBalance: real, xrpSpendable: Option<real>): (v: Validation)
    ensures v.isValid ==>
      !v.hasInvalidNumber && amount.Finite? && 0.0 < amount.value <= asset.balance
      && amount.value >= v.minRequired && Trim(to) != ""
    ensures v.isValid <==> Validate(env, asset, to, amt, amount, trxBalance, xrpSpendable).isValid && v.hasValidAmount
    ensures v.(isValid := false) == Validate(env, asset, to, amt, amount, trxBalance, xrpSpendable).(isValid := false)
  {
    var w := Validate(env, asset, to, amt, amount, trxBalance, xrpSpendable);
    w.(isValid := w.isValid && w.hasValidAmount)
  }

  /** Where a minimum is configured the correction changes nothing. */
  lemma CorrectionOnlyMattersWithoutMinimum(env: MinSend.Env, asset: Asset, to: string, amt: string,
                                            amount: JsNumber, trxBalance: real, xrpSpendable: Option<real>)
    requires MinSend.GetMinSendForSymbol(env, asset.symbol) > 0.0
    ensures IntendedValidate(env, asset, to, amt, amount, trxBalance, xrpSpendable)
         == Validate(env, asset, to, amt, amount, trxBalance, xrpSpendable)
  {
  }

  // ---- Max button ----------------------------------------------------------

  /** `Number(s)` of `x.toFixed(6)` for x >= 0: the multiple of 10^-6
      nearest to x, the larger one on a tie. Stripping the zero tail from
      the text does not change the number. */
  function Round6(x: real): (r: real)
    requires x >= 0.0
    ensures 0.0 <= r
    ensures x - 0.0000005 < r <= x + 0.0000005
  {
    var n := (x * 1000000.0 + 0.5).Floor;
    n as real / 1000000.0
  }

  /** What Max does to the amount field: nothing, or a text together with
      the number `parseFloat` reads from it. */
  datatype MaxFill = KeepAmount | FillWith(text: string, x: real)

  /** `handleMaxClick`: once the XRP account info is known, the spendable
      amount (at least 0) rendered with six decimals and its zero tail
      stripped, filled exactly when that amount is above zero; otherwise
      `balance.toString()`, filled exactly when the balance is above zero.
      The two renderings are inputs: `sixDecimals` for the spendable amount,
      `balanceText` for the balance. */
  function MaxClick(asset: Asset, xrpSpendable: Option<real>, sixDecimals: string, balanceText: string)
    : (r: MaxFill)
    ensures r.FillWith? ==> r.x >= 0.0
    ensures Lower(asset.id) == "xrp" && xrpSpendable.Some? ==>
      && (r.FillWith? <==> xrpSpendable.value > 0.0)
      && (r.FillWith? ==> r.text == sixDecimals && r.x == Round6(xrpSpendable.value))
      && (r.FillWith? ==> xrpSpendable.value - 0.0000005 < r.x <= xrpSpendable.value + 0.0000005)
    ensures !(Lower(asset.id) == "xrp" && xrpSpendable.Some?) ==>
      && (r.FillWith? <==> asset.balance > 0.0)
      && (r.FillWith? ==> r.text == balanceText && r.x == asset.balance)
  {
    if Lower(asset.id) == "xrp" && xrpSpendable.Some? then
      var max := if 0.0 >= xrpSpendable.value then 0.0 else xrpSpendable.value;
      if max > 0.0 then FillWith(sixDecimals, Round6(max)) else KeepAmount
    else if asset.balance > 0.0 then FillWith(balanceText, asset.balance)
    else KeepAmount
  }

  /** Filled from the balance, Max never trips the amount, balance or
      zero-balance checks: `balance.toString()` reads back as the balance. */
  lemma MaxFillPassesAmountChecks(env: MinSend.Env, asset: Asset, to: string, amt: string,
                                  trxBalance: real, xrpSpendable: Option<real>,
                                  sixDecimals: string, balanceText: string)
    requires !(Lower(asset.id) == "xrp" && xrpSpendable.Some?)
    requires MaxClick(asset, xrpSpendable, sixDecimals, balanceText).FillWith? && amt != ""
    ensures var x := MaxClick(asset, xrpSpendable, sixDecimals, balanceText).x;
      var v := Validate(env, asset, to, amt, Finite(x), trxBalance, xrpSpendable);
      v.hasValidAmount && !v.hasInvalidNumber && !v.exceedsSpendable
      && !v.hasInsufficientBalance && !v.hasZeroBalance
  {
  }

  /** Rounding to the nearest sixth decimal can fill in more XRP than is
      spendable, and then the form as written refuses its own Max amount. */
  lemma MaxOverfillsSpendable(env: MinSend.Env)
    ensures var asset := Asset("xrp", "XRP", 10.0);
      var r := MaxClick(asset, Some(0.1234567), "0.123457", "10");
      && r == FillWith("0.123457", 0.123457)
      && var v := Validate(env, asset, "addr", r.text, Finite(r.x), 0.0, Some(0.1234567));
      v.exceedsSpendable && !v.isValid
  {
    XrpFacts(env);
    assert (0.1234567 * 1000000.0 + 0.5).Floor == 123457;
  }

  /** A spendable amount below half a millionth is above zero, so Max fills
      in its rendering "0": an amount the memo flags as invalid, and which
      the form as written still accepts. */
  lemma MaxFillsZero(env: MinSend.Env)
    ensures var asset := Asset("xrp", "XRP", 10.0);
      var r := MaxClick(asset, Some(0.0000004), "0", "10");
      && r == FillWith("0", 0.0)
      && var v := Validate(env, asset, "addr", r.text, Finite(r.x), 0.0, Some(0.0000004));
      v.hasInvalidNumber && !v.hasValidAmount && v.isValid
  {
    XrpFacts(env);
    assert (0.0000004 * 1000000.0 + 0.5).Floor == 0;
    assert Round6(0.0000004) == 0.0;
  }

  /** `Number(s)` of a six-decimal rendering rounded down: the largest
      multiple of 10^-6 not above x. */
  function Floor6(x: real): (r: real)
    requires x >= 0.0
    ensures 0.0 <= r <= x < r + 0.000001
  {
    var n := (x * 1000000.0).Floor;
    n as real / 1000000.0
  }

  /** The Max button as intended: the spendable XRP rounded down to six
      decimals, filled only when that is above zero; the balance path is
      unchanged. `sixDecimals` is the rendering of the rounded-down amount. */
  function IntendedMaxClick(asset: Asset, xrpSpendable: Option<real>, sixDecimals: string, balanceText: string)
    : (r: MaxFill)
    ensures r.FillWith? ==> r.x > 0.0
    ensures Lower(asset.id) == "xrp" && xrpSpendable.Some? ==>
      && (r.FillWith? <==> xrpSpendable.value >= 0.000001)
      && (r.FillWith? ==> r.text == sixDecimals && xrpSpendable.value - 0.000001 < r.x <= xrpSpendable.value)
    ensures !(Lower(asset.id) == "xrp" && xrpSpendable.Some?) ==>
      r == MaxClick(asset, xrpSpendable, sixDecimals, balanceText)
  {
    if Lower(asset.id) == "xrp" && xrpSpendable.Some? then
      var max := if 0.0 >= xrpSpendable.value then 0.0 else xrpSpendable.value;
      var x := Floor6(max);
      if x > 0.0 then FillWith(sixDecimals, x) else KeepAmount
    else MaxClick(asset, xrpSpendable, sixDecimals, balanceText)
  }

  /** Whatever the intended Max fills in passes the amount check and, for
      XRP, the spendable check. */
  lemma IntendedMaxFillPassesAmountChecks(env: MinSend.Env, asset: Asset, to: string, amt: string,
                                          trxBalance: real, xrpSpendable: Option<real>,
                                          sixDecimals: string, balanceText: string)
    requires IntendedMaxClick(asset, xrpSpendable, sixDecimals, balanceText).FillWith? && amt != ""
    ensures var x := IntendedMaxClick(asset, xrpSpendable, sixDecimals, balanceText).x;
      var v := Validate(env, asset, to, amt, Finite(x), trxBalance, xrpSpendable);
      v.hasValidAmount && !v.hasInvalidNumber && !v.exceedsSpendable
      && (!(Lower(asset.id) == "xrp" && xrpSpendable.Some?) ==> !v.hasInsufficientBalance && !v.hasZeroBalance)
  {
  }

  // ---- submit --------------------------------------------------------------

  /** The arguments of `sendTransfer`. */
  datatype TransferArgs = TransferArgs(chain: string, toAddress: string, amount: string, passcode: Option<string>)

  datatype SubmitStep = Ignored | AskPasscode | Send(args: TransferArgs)

  /** The request shaping shared by both submit paths. */
  function ShapeTransfer(asset: Asset, to: string, amt: string, passcode: Option<string>): (a: TransferArgs)
    ensures a.toAddress == StripSpaces(to) && NoSpace(a.toAddress)
    ensures a.amount == Trim(amt)
    ensures a.chain == Lower(asset.id)
    ensures a.passcode == passcode
  {
    TrimNoSpace(StripSpaces(to));
    TransferArgs(Lower(asset.id), Trim(StripSpaces(to)), Trim(amt), passcode)
  }

  /** The Send button: disabled while busy or while the validation it is
      given (the memo as written, in the page) is invalid; with a passcode
      set it only opens the passcode prompt. */
  function Submit(busy: bool, v: Validation, passcodeEnabled: bool, asset: Asset, to: string, amt: string)
    : (r: SubmitStep)
    ensures r.Send? <==> !busy && v.isValid && !passcodeEnabled
    ensures r == AskPasscode <==> !busy && v.isValid && passcodeEnabled
    ensures r.Send? ==> r.args == ShapeTransfer(asset, to, amt, None)
  {
    if busy || !v.isValid then Ignored
    else if passcodeEnabled then AskPasscode
    else Send(ShapeTransfer(asset, to, amt, None))
  }

  /** Sending from the passcode prompt: the same shaping, plus the passcode
      the prompt reports. */
  function SubmitWithPasscode(asset: Asset, to: string, amt: string, currentPasscode: Option<string>)
    : (a: TransferArgs)
    ensures a.(passcode := None) == ShapeTransfer(asset, to, amt, None)
    ensures a.passcode == currentPasscode
  {
    ShapeTransfer(asset, to, amt, currentPasscode)
  }
}
