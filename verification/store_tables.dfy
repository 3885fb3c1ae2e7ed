/** The pure tables and sums of the wallet store (src/stores/wallet.ts):
    canonical price ids of chains, display symbols of chains, the set of
    ids whose prices are fetched, and the portfolio total. */
module StoreTables {
  import opened Text
  import opened Seqs

  /** One wallet of the active keyring; `balance` is the coerced number. */
  datatype WalletItem = WalletItem(chain: string, address: string, balance: real)

  /** Token chains whose price is the one of their token. */
  predicate IsUsdtChain(lc: string) {
    lc == "usdt-trc20" || lc == "usdt-erc20" || lc == "usdt-bep20"
  }

  predicate IsUsdcChain(lc: string) {
    lc == "usdc-erc20" || lc == "usdc-bep20"
  }

  /** `chainToId`: token chains (any letter case) map to their token's price
      id; every other chain is returned exactly as given, not lower-cased. */
  function ChainToId(chain: string): (id: string)
    ensures IsUsdtChain(Lower(chain)) ==> id == "usdt"
    ensures IsUsdcChain(Lower(chain)) ==> id == "usdc"
    ensures !IsUsdtChain(Lower(chain)) && !IsUsdcChain(Lower(chain)) ==> id == chain
  {
    var lc := Lower(chain);
    if IsUsdtChain(lc) then "usdt"
    else if IsUsdcChain(lc) then "usdc"
    else chain
  }

  /** A canonical id is its own canonical id. */
  lemma ChainToIdIdempotent(chain: string)
    ensures ChainToId(ChainToId(chain)) == ChainToId(chain)
  {
    var id := ChainToId(chain);
    if id == "usdt" || id == "usdc" {
      assert Lower(id) == id;
    }
  }

  /** `mapChainToSymbol`: a fixed table on the lower-cased chain, otherwise
      the upper-cased chain. */
  function MapChainToSymbol(chain: string): (sym: string)
    ensures Upper(sym) == sym
    ensures Lower(chain) == "bitcoin" ==> sym == "BTC"
    ensures Lower(chain) == "ethereum" ==> sym == "ETH"
    ensures Lower(chain) == "tron" ==> sym == "TRX"
    ensures Lower(chain) == "bsc" ==> sym == "BNB"
    ensures IsUsdtChain(Lower(chain)) ==> sym == "USDT"
    ensures IsUsdcChain(Lower(chain)) ==> sym == "USDC"
    ensures (!IsUsdtChain(Lower(chain)) && !IsUsdcChain(Lower(chain))
             && Lower(chain) !in {"bitcoin", "ethereum", "tron", "bsc"}) ==> sym == Upper(chain)
  {
    var lc := Lower(chain);
    if lc == "bitcoin" then "BTC"
    else if lc == "ethereum" then "ETH"
    else if lc == "tron" then "TRX"
    else if IsUsdtChain(lc) then "USDT"
    else if IsUsdcChain(lc) then "USDC"
    else if lc == "bsc" then "BNB"
    else UpperIdempotent(chain); Upper(chain)
  }

  /** The symbol table ignores letter case. */
  lemma MapChainToSymbolCaseInsensitive(chain: string)
    ensures MapChainToSymbol(Lower(chain)) == MapChainToSymbol(chain)
  {
    LowerOfLower(chain);
    UpperOfLower(chain);
  }

  /** The two tables agree on tokens: a chain priced as a stablecoin is
      displayed with that stablecoin's ticker. */
  lemma SymbolAgreesWithPriceId(chain: string)
    requires ChainToId(chain) in {"usdt", "usdc"}
    ensures MapChainToSymbol(chain) == Upper(ChainToId(chain))
  {
    var lc := Lower(chain);
    if !IsUsdtChain(lc) && !IsUsdcChain(lc) {
      // the chain is returned unchanged, so it is "usdt" or "usdc" itself
      assert lc == chain;
    }
  }

  /** `DEFAULT_PRICE_IDS`: always priced, wallet or not. */
  const DefaultPriceIds: seq<string> :=
    ["bitcoin", "ethereum", "tron", "usdt", "bsc", "usdc", "solana", "xrp"]

  /** The price id of every wallet, in wallet order. */
  function WalletIds(wallets: seq<WalletItem>): (ids: seq<string>)
    ensures |ids| == |wallets|
    ensures forall i :: 0 <= i < |wallets| ==> ids[i] == ChainToId(wallets[i].chain)
  {
    if |wallets| == 0 then [] else [ChainToId(wallets[0].chain)] + WalletIds(wallets[1..])
  }

  /** The ids whose prices are fetched: the distinct wallet ids, then the
      defaults not already present. */
  function PriceIds(wallets: seq<WalletItem>): (ids: seq<string>)
    ensures Distinct(ids)
    ensures forall d :: d in DefaultPriceIds ==> d in ids
    ensures forall w :: w in wallets ==> ChainToId(w.chain) in ids
    ensures forall x :: x in ids ==> x in DefaultPriceIds || exists w :: w in wallets && x == ChainToId(w.chain)
  {
    var walletIds := WalletIds(wallets);
    forall w | w in wallets
      ensures ChainToId(w.chain) in walletIds
    {
      var i :| 0 <= i < |wallets| && wallets[i] == w;
      assert walletIds[i] == ChainToId(w.chain);
    }
    forall x | x in walletIds
      ensures exists w :: w in wallets && x == ChainToId(w.chain)
    {
      var i :| 0 <= i < |walletIds| && walletIds[i] == x;
      assert wallets[i] in wallets;
    }
    Dedup(Dedup(walletIds) + DefaultPriceIds)
  }

  /** `prices[id] || 0`. */
  function PriceOr0(prices: map<string, real>, id: string): real {
    if id in prices then prices[id] else 0.0
  }

  /** The store's total: every wallet's balance at its price id's price
      (0 without one), summed from 0 in wallet order. */
  function Total(wallets: seq<WalletItem>, prices: map<string, real>): real
  {
    if |wallets| == 0 then 0.0
    else Total(wallets[..|wallets| - 1], prices) + Worth(prices, wallets[|wallets| - 1])
  }

  /** One wallet's share of the total. */
  function Worth(prices: map<string, real>, w: WalletItem): real {
    PriceOr0(prices, ChainToId(w.chain)) * w.balance
  }

  /** The total of two wallet lists is the sum of their totals. */
  lemma {:induction false} TotalAppend(a: seq<WalletItem>, b: seq<WalletItem>, prices: map<string, real>)
    ensures Total(a + b, prices) == Total(a, prices) + Total(b, prices)
    decreases |b|
  {
    if |b| > 0 {
      var b' := b[..|b| - 1];
      TotalAppend(a, b', prices);
      assert (a + b)[..|a + b| - 1] == a + b';
      assert (a + b)[|a + b| - 1] == b[|b| - 1];
      assert Total(b, prices) == Total(b', prices) + Worth(prices, b[|b| - 1]);
    } else {
      assert a + b == a;
    }
  }

  /** Totals only depend on the prices of ids the wallets actually have. */
  lemma TotalDependsOnWalletPrices(wallets: seq<WalletItem>, p: map<string, real>, q: map<string, real>)
    requires forall w :: w in wallets ==> PriceOr0(p, ChainToId(w.chain)) == PriceOr0(q, ChainToId(w.chain))
    ensures Total(wallets, p) == Total(wallets, q)
  {
    forall w | w in wallets
      ensures Worth(p, w) == Worth(q, w)
    {
    }
    TotalDependsOnOwnPrices(wallets, p, q);
  }

  /** Totals agree when every wallet is worth the same under both price maps. */
  lemma {:induction false} TotalDependsOnOwnPrices(wallets: seq<WalletItem>, p: map<string, real>, q: map<string, real>)
    requires forall w :: w in wallets ==> Worth(p, w) == Worth(q, w)
    ensures Total(wallets, p) == Total(wallets, q)
    decreases |wallets|
  {
    if |wallets| > 0 {
      var init, last := wallets[..|wallets| - 1], wallets[|wallets| - 1];
      assert last in wallets;
      forall w | w in init
        ensures Worth(p, w) == Worth(q, w)
      {
        assert w in wallets;
      }
      TotalDependsOnOwnPrices(init, p, q);
    }
  }

  /** Without any price the total is zero, whatever the balances. */
  lemma {:induction false} TotalWithoutPrices(wallets: seq<WalletItem>)
    ensures Total(wallets, map[]) == 0.0
    decreases |wallets|
  {
    if |wallets| > 0 {
      TotalWithoutPrices(wallets[..|wallets| - 1]);
    }
  }

  /** Non-negative balances at non-negative prices never give a negative total. */
  lemma {:induction false} TotalNonNegative(wallets: seq<WalletItem>, prices: map<string, real>)
    requires forall w :: w in wallets ==> w.balance >= 0.0
    requires forall id :: id in prices ==> prices[id] >= 0.0
    ensures Total(wallets, prices) >= 0.0
    decreases |wallets|
  {
    if |wallets| > 0 {
      var init, last := wallets[..|wallets| - 1], wallets[|wallets| - 1];
      assert forall w :: w in init ==> w in wallets;
      assert last in wallets;
      TotalNonNegative(init, prices);
      WorthNonNegative(prices, last);
    }
  }

  lemma WorthNonNegative(prices: map<string, real>, w: WalletItem)
    requires w.balance >= 0.0
    requires forall id :: id in prices ==> prices[id] >= 0.0
    ensures Worth(prices, w) >= 0.0
  {
    var p := PriceOr0(prices, ChainToId(w.chain));
    assert p >= 0.0;
    ProductNonNegative(p, w.balance);
  }

  lemma ProductNonNegative(x: real, y: real)
    requires x >= 0.0 && y >= 0.0
    ensures x * y >= 0.0
  {
  }
}
