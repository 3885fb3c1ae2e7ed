/** Display labels for assets (src/helpers/labels.ts). */
module Labels {
  import opened Text

  /** The network tag of a stablecoin id: three spelled-out cases, otherwise
      the suffix upper-cased. */
  function Tag(suffix: string): string {
    if suffix == "trc20" then "TRC20"
    else if suffix == "erc20" then "ERC20"
    else if suffix == "bep20" then "BEP20"
    else Upper(suffix)
  }

  /** The explicit cases of `Tag` agree with plain upper-casing, so the tag
      is `toUpperCase` on every input. */
  lemma TagIsUpper(suffix: string)
    ensures Tag(suffix) == Upper(suffix)
  {
    if suffix == "trc20" {
      assert Upper(suffix) == "TRC20";
    } else if suffix == "erc20" {
      assert Upper(suffix) == "ERC20";
    } else if suffix == "bep20" {
      assert Upper(suffix) == "BEP20";
    }
  }

  /** The second '-' separated segment of an id, "" when there is none. */
  function Suffix(id: string): string {
    SplitPart(id, '-', 1)
  }

  predicate IsUsdt(id: string, symbol: string) { id == "usdt" || Upper(symbol) == "USDT" }
  predicate IsUsdc(id: string, symbol: string) { id == "usdc" || Upper(symbol) == "USDC" }
  predicate IsBnb(id: string, symbol: string) { id == "bsc" || Upper(symbol) == "BNB" }

  /** `getAssetDisplayName`. The exact-id / symbol rule for USDT is checked
      before the "usdt-" prefix rule, then the same pair for USDC, then BNB. */
  function GetAssetDisplayName(id: string, symbol: string, name: string): (r: string)
    ensures IsUsdt(id, symbol) ==> r == "USDT"
    ensures (!IsUsdt(id, symbol) && StartsWith(id, "usdt-"))
      ==> r == "USDT (" + Upper(Suffix(id)) + ")"
    ensures (!IsUsdt(id, symbol) && !StartsWith(id, "usdt-") && IsUsdc(id, symbol))
      ==> r == "USDC"
    ensures (!IsUsdt(id, symbol) && !StartsWith(id, "usdt-") && !IsUsdc(id, symbol)
             && StartsWith(id, "usdc-"))
      ==> r == "USDC (" + Upper(Suffix(id)) + ")"
    ensures (!IsUsdt(id, symbol) && !StartsWith(id, "usdt-") && !IsUsdc(id, symbol)
             && !StartsWith(id, "usdc-"))
      ==> r == (if IsBnb(id, symbol) then "BNB" else name)
  {
    TagIsUpper(Suffix(id));
    var up := Upper(symbol);
    if id == "usdt" || up == "USDT" then "USDT"
    else if StartsWith(id, "usdt-") then "USDT (" + Tag(Suffix(id)) + ")"
    else if id == "usdc" || up == "USDC" then "USDC"
    else if StartsWith(id, "usdc-") then "USDC (" + Tag(Suffix(id)) + ")"
    else if id == "bsc" || up == "BNB" then "BNB"
    else name
  }

  /** `getSymbolWithNetwork`: USDT / USDC / BNB in any case are upper-cased,
      every other symbol is returned as given. */
  function GetSymbolWithNetwork(symbol: string): (r: string)
    ensures Upper(symbol) in {"USDT", "USDC", "BNB"} ==> r == Upper(symbol)
    ensures Upper(symbol) !in {"USDT", "USDC", "BNB"} ==> r == symbol
  {
    var up := Upper(symbol);
    if up == "USDT" then "USDT"
    else if up == "USDC" then "USDC"
    else if up == "BNB" then "BNB"
    else symbol
  }

  lemma SymbolWithNetworkIdempotent(symbol: string)
    ensures GetSymbolWithNetwork(GetSymbolWithNetwork(symbol)) == GetSymbolWithNetwork(symbol)
  {
    UpperIdempotent(symbol);
  }

  /** `getAssetNetworkLabel`: the network of a stablecoin id (matched
      case-insensitively), otherwise the upper-cased symbol. */
  function GetAssetNetworkLabel(id: string, symbol: string): (r: string)
    ensures Upper(r) == r
    ensures (StartsWith(Lower(id), "usdt-") || StartsWith(Lower(id), "usdc-"))
      ==> r == Upper(Suffix(Lower(id)))
    ensures !(StartsWith(Lower(id), "usdt-") || StartsWith(Lower(id), "usdc-"))
      ==> r == Upper(symbol)
  {
    var low := Lower(id);
    UpperIdempotent(Suffix(low));
    UpperIdempotent(symbol);
    if StartsWith(low, "usdt-") || StartsWith(low, "usdc-") then Upper(Suffix(low))
    else Upper(symbol)
  }
}

/** The older copy of the label helpers (helpers/labels.ts): USDT is always
    shown as the TRC20 token. */
module LegacyLabels {
  import opened Text

  const UsdtTrc20Label := "USDT (TRC20)"

  /** `getAssetDisplayName`: the TRC20 label exactly for the USDT id or symbol. */
  function GetAssetDisplayName(id: string, symbol: string, name: string): (r: string)
    ensures (id == "usdt" || Upper(symbol) == "USDT") ==> r == UsdtTrc20Label
    ensures !(id == "usdt" || Upper(symbol) == "USDT") ==> r == name
  {
    if id == "usdt" || Upper(symbol) == "USDT" then UsdtTrc20Label else name
  }

  /** `getSymbolWithNetwork`: the TRC20 label exactly for "usdt" in any case. */
  function GetSymbolWithNetwork(symbol: string): (r: string)
    ensures Upper(symbol) == "USDT" ==> r == UsdtTrc20Label
    ensures Upper(symbol) != "USDT" ==> r == symbol
  {
    if Upper(symbol) == "USDT" then UsdtTrc20Label else symbol
  }

  /** The label itself is not a USDT symbol, so applying the function twice
      changes nothing. */
  lemma SymbolWithNetworkIdempotent(symbol: string)
    ensures GetSymbolWithNetwork(GetSymbolWithNetwork(symbol)) == GetSymbolWithNetwork(symbol)
  {
    assert |Upper(UsdtTrc20Label)| != |"USDT"|;
  }
}
