/** Minimum send amounts per asset (config/minSend.ts). The environment
    variables are inputs: each is either unset / not a string (None) or the
    number `Number(value)` coerces it to. */
module MinSend {
  import opened Wrappers
  import opened Text

  datatype Env = Env(
    btc: Option<JsNumber>,   // PLASMO_PUBLIC_MIN_SEND_BTC
    eth: Option<JsNumber>,   // PLASMO_PUBLIC_MIN_SEND_ETH
    trx: Option<JsNumber>,   // PLASMO_PUBLIC_MIN_SEND_TRX
    usdt: Option<JsNumber>)  // PLASMO_PUBLIC_MIN_SEND_USDT_TRC20

  /** `env(key, fallback)`: the variable's value only when it parses to a
      finite number above zero. */
  function EnvOr(v: Option<JsNumber>, fallback: real): (r: real)
    ensures (v.Some? && v.value.Finite? && v.value.value > 0.0) ==> r == v.value.value
    ensures !(v.Some? && v.value.Finite? && v.value.value > 0.0) ==> r == fallback
    ensures fallback > 0.0 ==> r > 0.0
  {
    match v
    case Some(Finite(n)) => if n > 0.0 then n else fallback
    case _ => fallback
  }

  datatype MinSendTable = MinSendTable(BTC: real, ETH: real, TRX: real, USDT: real)

  /** `MIN_SEND`, read once from the environment. */
  function MinSendOf(env: Env): (t: MinSendTable)
    ensures t.BTC > 0.0 && t.ETH > 0.0 && t.TRX > 0.0 && t.USDT > 0.0
  {
    MinSendTable(
      EnvOr(env.btc, 0.00001),
      EnvOr(env.eth, 0.00021),
      EnvOr(env.trx, 2.0),
      EnvOr(env.usdt, 1.0))
  }

  /** `getMinSendForSymbol`: case-insensitive; symbols without an entry have
      no extra floor. */
  function GetMinSendForSymbol(env: Env, symbol: string): (r: real)
    ensures r >= 0.0
    ensures Upper(symbol) == "BTC" ==> r == MinSendOf(env).BTC
    ensures Upper(symbol) == "ETH" ==> r == MinSendOf(env).ETH
    ensures Upper(symbol) == "TRX" ==> r == MinSendOf(env).TRX
    ensures Upper(symbol) == "USDT" ==> r == MinSendOf(env).USDT
    ensures Upper(symbol) !in {"BTC", "ETH", "TRX", "USDT"} <==> r == 0.0
  {
    var t := MinSendOf(env);
    var s := Upper(symbol);
    if s == "BTC" then t.BTC
    else if s == "ETH" then t.ETH
    else if s == "TRX" then t.TRX
    else if s == "USDT" then t.USDT
    else 0.0
  }

  lemma MinSendCaseInsensitive(env: Env, symbol: string)
    ensures GetMinSendForSymbol(env, symbol) == GetMinSendForSymbol(env, Lower(symbol))
    ensures GetMinSendForSymbol(env, symbol) == GetMinSendForSymbol(env, Upper(symbol))
  {
    UpperOfLower(symbol);
    UpperIdempotent(symbol);
  }
}
