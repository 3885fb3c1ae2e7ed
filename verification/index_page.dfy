/** The home page (src/pages/IndexPage/IndexPage.tsx): the store's wallets
    and prices merged into the page's own asset list, the recent records
    handed to the history card, and the zero-balance toggle. */
module IndexPage {
  import opened Wrappers
  import opened Seqs
  import opened StoreTables
  import opened StoreTransactions
  import opened AssetList
  import TransactionHistory

  /** The page's local state that the model covers; the user block is left
      out. */
  datatype WalletData = WalletData(totalBalanceUSD: real, assets: seq<Asset>, hideZeroBalances: bool)

  /** The four assets the page starts with, all at zero. */
  const InitialAssets: seq<Asset> := [
    Asset("bitcoin", "Bitcoin", "BTC", 0.0, 0.0, 0.0, 0.0, "bitcoin.svg", None),
    Asset("ethereum", "Ethereum", "ETH", 0.0, 0.0, 0.0, 0.0, "ethereum.svg", None),
    Asset("usdt", "Tether", "USDT", 0.0, 0.0, 0.0, 0.0, "usdt.svg", None),
    Asset("tron", "Tron", "TRX", 0.0, 0.0, 0.0, 0.0, "tron.svg", None)
  ]

  /** The page's own chain-to-id: only the exact "usdt-trc20" is renamed. */
  function LocalChainToId(chain: string): (id: string)
    ensures chain == "usdt-trc20" ==> id == "usdt"
    ensures chain != "usdt-trc20" ==> id == chain
  {
    if chain == "usdt-trc20" then "usdt" else chain
  }

  /** Unlike the store's table, the page's renames neither the other USDT
      chains nor another letter case. */
  lemma LocalChainToIdNarrower()
    ensures LocalChainToId("usdt-erc20") == "usdt-erc20" && ChainToId("usdt-erc20") == "usdt"
    ensures LocalChainToId("USDT-TRC20") == "USDT-TRC20" && ChainToId("USDT-TRC20") == "usdt"
  {
    assert Text.Lower("usdt-erc20") == "usdt-erc20";
    assert Text.Lower("USDT-TRC20") == "usdt-trc20";
  }

  /** The reference reading of the wallets: the last one whose local id is
      `id`. */
  function LastMatch(wallets: seq<WalletItem>, id: string): (r: Option<WalletItem>)
    ensures r.None? <==> forall i :: 0 <= i < |wallets| ==> LocalChainToId(wallets[i].chain) != id
    ensures r.Some? ==> exists i :: (0 <= i < |wallets| && wallets[i] == r.value
      && LocalChainToId(wallets[i].chain) == id
      && forall j :: i < j < |wallets| ==> LocalChainToId(wallets[j].chain) != id)
  {
    if |wallets| == 0 then None
    else
      var last := wallets[|wallets| - 1];
      if LocalChainToId(last.chain) == id then Some(last)
      else
        var r := LastMatch(wallets[..|wallets| - 1], id);
        assert forall i :: 0 <= i < |wallets| - 1 ==> wallets[..|wallets| - 1][i] == wallets[i];
        r
  }

  /** `addrById`: each wallet's address stored under its local id, later
      wallets overwriting earlier ones. */
  function AddrById(wallets: seq<WalletItem>): map<string, string> {
    if |wallets| == 0 then map[]
    else
      var w := wallets[|wallets| - 1];
      AddrById(wallets[..|wallets| - 1])[LocalChainToId(w.chain) := w.address]
  }

  /** `balById`, built the same way from the balances. */
  function BalById(wallets: seq<WalletItem>): map<string, real> {
    if |wallets| == 0 then map[]
    else
      var w := wallets[|wallets| - 1];
      BalById(wallets[..|wallets| - 1])[LocalChainToId(w.chain) := w.balance]
  }

  /** Both maps hold, for every id, the last matching wallet's values. */
  lemma {:induction false} MapsHoldLastMatch(wallets: seq<WalletItem>, id: string)
    ensures id in BalById(wallets) <==> LastMatch(wallets, id).Some?
    ensures id in AddrById(wallets) <==> LastMatch(wallets, id).Some?
    ensures LastMatch(wallets, id).Some? ==>
      BalById(wallets)[id] == LastMatch(wallets, id).value.balance
      && AddrById(wallets)[id] == LastMatch(wallets, id).value.address
    decreases |wallets|
  {
    if |wallets| > 0 {
      var w := wallets[|wallets| - 1];
      if LocalChainToId(w.chain) != id {
        MapsHoldLastMatch(wallets[..|wallets| - 1], id);
      }
    }
  }

  /** One asset after the merge: balance and address from the wallet maps,
      the price from the store (0 when missing), the change from the store
      or the previous one, the fiat value at the store price. */
  function MergeOne(a: Asset, addr: map<string, string>, bal: map<string, real>,
                    prices: map<string, real>, changes: map<string, real>): (r: Asset)
    ensures r.(address := a.address, balance := a.balance, balanceUSD := a.balanceUSD,
               price := a.price, priceChange24h := a.priceChange24h) == a
  {
    var price := if a.id in prices then prices[a.id] else 0.0;
    var change := if a.id in changes then changes[a.id] else a.priceChange24h;
    var balance := if a.id in bal then bal[a.id] else a.balance;
    var address := if a.id in addr && addr[a.id] != "" then Some(addr[a.id]) else a.address;
    a.(address := address, balance := balance, balanceUSD := balance * price,
       price := if price != 0.0 then price else a.price, priceChange24h := change)
  }

  /** The merge effect: nothing when the store has no wallet, otherwise
      every asset merged in place. */
  function MergeAssets(prev: seq<Asset>, wallets: seq<WalletItem>,
                       prices: map<string, real>, changes: map<string, real>): (r: seq<Asset>)
    ensures |wallets| == 0 ==> r == prev
    ensures |r| == |prev|
    ensures forall i :: 0 <= i < |prev| ==>
      (r[i].id == prev[i].id && r[i].name == prev[i].name
       && r[i].symbol == prev[i].symbol && r[i].icon == prev[i].icon)
  {
    if |wallets| == 0 then prev
    else
      var addr, bal := AddrById(wallets), BalById(wallets);
      seq(|prev|, i requires 0 <= i < |prev| => MergeOne(prev[i], addr, bal, prices, changes))
  }

  /** Where a merged asset's balance and address come from, read off the
      wallets directly: the last matching wallet's balance (and its address
      when it has one), or the previous values without a match. */
  lemma MergedHoldings(prev: seq<Asset>, wallets: seq<WalletItem>,
                       prices: map<string, real>, changes: map<string, real>, i: nat)
    requires |wallets| > 0 && i < |prev|
    ensures var a, r, m := prev[i], MergeAssets(prev, wallets, prices, changes)[i], LastMatch(wallets, prev[i].id);
      && (m.None? ==> r.balance == a.balance && r.address == a.address)
      && (m.Some? ==> r.balance == m.value.balance)
      && (m.Some? && m.value.address != "" ==> r.address == Some(m.value.address))
      && (m.Some? && m.value.address == "" ==> r.address == a.address)
  {
    var r := MergeAssets(prev, wallets, prices, changes)[i];
    assert r == MergeOne(prev[i], AddrById(wallets), BalById(wallets), prices, changes);
    MapsHoldLastMatch(wallets, prev[i].id);
  }

  /** A merged asset's prices: the fiat value at the store's price or 0,
      and the previous price and change where the store has none. */
  lemma MergedPrices(prev: seq<Asset>, wallets: seq<WalletItem>,
                     prices: map<string, real>, changes: map<string, real>, i: nat)
    requires |wallets| > 0 && i < |prev|
    ensures var a, r := prev[i], MergeAssets(prev, wallets, prices, changes)[i];
      && r.balanceUSD == r.balance * (if a.id in prices then prices[a.id] else 0.0)
      && (a.id in prices && prices[a.id] != 0.0 ==> r.price == prices[a.id])
      && (a.id !in prices || prices[a.id] == 0.0 ==> r.price == a.price)
      && r.priceChange24h == (if a.id in changes then changes[a.id] else a.priceChange24h)
  {
    var r := MergeAssets(prev, wallets, prices, changes)[i];
    assert r == MergeOne(prev[i], AddrById(wallets), BalById(wallets), prices, changes);
  }

  /** A USDT wallet on another chain than TRC-20 never reaches the page's
      USDT asset. */
  lemma OtherUsdtChainsNotMerged(address: string, balance: real, prices: map<string, real>, changes: map<string, real>)
    ensures var merged := MergeAssets(InitialAssets, [WalletItem("usdt-erc20", address, balance)], prices, changes);
      merged[2].id == "usdt" && merged[2].balance == 0.0 && merged[2].address.None?
  {
    MergedHoldings(InitialAssets, [WalletItem("usdt-erc20", address, balance)], prices, changes, 2);
  }

  /** `handleToggleZeroBalances`: only the flag flips. */
  function ToggleZeroBalances(w: WalletData): (r: WalletData)
    ensures r.hideZeroBalances == !w.hideZeroBalances
    ensures r.(hideZeroBalances := w.hideZeroBalances) == w
  {
    w.(hideZeroBalances := !w.hideZeroBalances)
  }

  /** Toggling twice restores the page. */
  lemma ToggleTwice(w: WalletData)
    ensures ToggleZeroBalances(ToggleZeroBalances(w)) == w
  {
  }

  /** `recentTransactions`: the store's first five records. */
  function Recent(txs: seq<Transaction>): (r: seq<Transaction>)
    ensures |r| == Min(5, |txs|) && r == txs[..|r|]
  {
    Take(txs, 5)
  }

  /** The home card as written: the card is given only the recent records
      and its default of five. */
  function HomeCard(txs: seq<Transaction>): TransactionHistory.Card {
    TransactionHistory.HistoryCard(Recent(txs), TransactionHistory.DefaultMaxItems)
  }

  /** "See all" never appears on the home page, however many records the
      store holds. */
  lemma HomeCardNeverSeeAll(txs: seq<Transaction>)
    ensures !HomeCard(txs).seeAll
    ensures HomeCard(txs).shown == Recent(txs)
  {
  }

  /** Six records, and still no "See all". */
  lemma SixRecordsNoSeeAll(t: Transaction)
    ensures var txs := [t, t, t, t, t, t]; |txs| > TransactionHistory.DefaultMaxItems && !HomeCard(txs).seeAll
  {
    HomeCardNeverSeeAll([t, t, t, t, t, t]);
  }

  /** The home card given the store's whole list: it still lists the same
      five records, and "See all" appears exactly when there are more. */
  function IntendedHomeCard(txs: seq<Transaction>): (c: TransactionHistory.Card)
    ensures c.shown == Recent(txs)
    ensures c.seeAll <==> |txs| > 5
    ensures c.empty <==> txs == []
  {
    TransactionHistory.HistoryCard(txs, TransactionHistory.DefaultMaxItems)
  }
}
