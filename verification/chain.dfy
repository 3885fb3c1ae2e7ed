/** Ticker symbol <-> backend chain identifier (src/helpers/chain.ts). */
module Chain {
  import opened Text

  /** The five backend chains the send flow knows. */
  datatype BackendChain = Bitcoin | Ethereum | Tron | Bsc | UsdtTrc20 {
    function Name(): string {
      match this
      case Bitcoin => "bitcoin"
      case Ethereum => "ethereum"
      case Tron => "tron"
      case Bsc => "bsc"
      case UsdtTrc20 => "usdt-trc20"
    }
  }

  /** The upper-cased symbols that have a chain of their own. */
  predicate KnownSymbol(up: string) {
    up == "BTC" || up == "ETH" || up == "TRX" || up == "BNB" || up == "USDT"
  }

  /** `symbolToChain`: case-insensitive, unknown symbols fall back to ethereum. */
  function SymbolToChain(symbol: string): (c: BackendChain)
    ensures c == Bitcoin <==> Upper(symbol) == "BTC"
    ensures c == Tron <==> Upper(symbol) == "TRX"
    ensures c == Bsc <==> Upper(symbol) == "BNB"
    ensures c == UsdtTrc20 <==> Upper(symbol) == "USDT"
    ensures c == Ethereum <==> (Upper(symbol) == "ETH" || !KnownSymbol(Upper(symbol)))
  {
    var s := Upper(symbol);
    if s == "BTC" then Bitcoin
    else if s == "ETH" then Ethereum
    else if s == "TRX" then Tron
    else if s == "BNB" then Bsc
    else if s == "USDT" then UsdtTrc20
    else Ethereum
  }

  /** `chainToSymbol`: total on the five chains, always an upper-case known symbol. */
  function ChainToSymbol(c: BackendChain): (s: string)
    ensures KnownSymbol(s)
    ensures Upper(s) == s
  {
    match c
    case Bitcoin => "BTC"
    case Ethereum => "ETH"
    case Tron => "TRX"
    case Bsc => "BNB"
    case UsdtTrc20 => "USDT"
  }

  /** The lookup ignores letter case. */
  lemma SymbolToChainCaseInsensitive(symbol: string)
    ensures SymbolToChain(symbol) == SymbolToChain(Upper(symbol))
    ensures SymbolToChain(symbol) == SymbolToChain(Lower(symbol))
  {
    UpperIdempotent(symbol);
    UpperOfLower(symbol);
  }

  /** chain -> symbol -> chain is the identity. */
  lemma ChainRoundTrip(c: BackendChain)
    ensures SymbolToChain(ChainToSymbol(c)) == c
  {
  }

  /** symbol -> chain -> symbol gives the upper-cased symbol for the five
      known ones and "ETH" for every other. */
  lemma SymbolRoundTrip(symbol: string)
    ensures KnownSymbol(Upper(symbol)) ==> ChainToSymbol(SymbolToChain(symbol)) == Upper(symbol)
    ensures !KnownSymbol(Upper(symbol)) ==> ChainToSymbol(SymbolToChain(symbol)) == "ETH"
  {
  }
}
