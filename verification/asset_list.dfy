/** The asset grid of the home page (src/components/AssetList/AssetList.tsx):
    which assets are listed when zero balances are hidden, the texts of a
    card, the colour of the 24-hour change, and the empty state. */
module AssetList {
  import opened Wrappers
  import opened Text
  import Fiats

  /** An asset card's data; `address` is absent until a wallet supplies one. */
  datatype Asset = Asset(
    id: string, name: string, symbol: string, balance: real, balanceUSD: real,
    price: real, priceChange24h: real, icon: string, address: Option<string>)

  /** The assets with a positive balance, in their order. */
  function Positive(assets: seq<Asset>): (r: seq<Asset>)
    ensures |r| <= |assets|
    ensures forall a :: a in r <==> a in assets && a.balance > 0.0
  {
    if |assets| == 0 then []
    else
      var rest := Positive(assets[1..]);
      assert forall a :: a in assets <==> a == assets[0] || a in assets[1..];
      if assets[0].balance > 0.0 then [assets[0]] + rest else rest
  }

  /** Filtering a concatenation filters each part in place, so the kept
      assets keep their relative order. */
  lemma {:induction false} PositiveConcat(a: seq<Asset>, b: seq<Asset>)
    ensures Positive(a + b) == Positive(a) + Positive(b)
    decreases |a|
  {
    if |a| == 0 {
      assert a + b == b;
    } else {
      assert (a + b)[0] == a[0];
      assert (a + b)[1..] == a[1..] + b;
      PositiveConcat(a[1..], b);
    }
  }

  /** Filtering twice keeps what filtering once kept. */
  lemma {:induction false} PositiveIdempotent(assets: seq<Asset>)
    ensures Positive(Positive(assets)) == Positive(assets)
    decreases |assets|
  {
    if |assets| > 0 {
      PositiveIdempotent(assets[1..]);
      var rest := Positive(assets[1..]);
      if assets[0].balance > 0.0 {
        var r := [assets[0]] + rest;
        assert r[0] == assets[0] && r[1..] == rest;
      }
    }
  }

  /** `filteredAssets`: the positive balances when hiding, all otherwise. */
  function Visible(assets: seq<Asset>, hideZeroBalances: bool): (r: seq<Asset>)
    ensures !hideZeroBalances ==> r == assets
    ensures hideZeroBalances ==> forall a :: a in r <==> a in assets && a.balance > 0.0
    ensures hideZeroBalances && (forall i :: 0 <= i < |assets| ==> assets[i].balance > 0.0) ==> r == assets
  {
    if hideZeroBalances then
      AllPositiveKept(assets);
      Positive(assets)
    else assets
  }

  lemma {:induction false} AllPositiveKept(assets: seq<Asset>)
    ensures (forall i :: 0 <= i < |assets| ==> assets[i].balance > 0.0) ==> Positive(assets) == assets
    decreases |assets|
  {
    if |assets| > 0 && forall i :: 0 <= i < |assets| ==> assets[i].balance > 0.0 {
      var t := assets[1..];
      assert forall i :: 0 <= i < |t| ==> t[i].balance > 0.0 by {
        forall i | 0 <= i < |t| ensures t[i].balance > 0.0 { assert t[i] == assets[i + 1]; }
      }
      AllPositiveKept(t);
      assert assets == [assets[0]] + t;
    }
  }

  /** The toggle's caption. */
  function ToggleText(hideZeroBalances: bool): (r: string)
    ensures |r| == 14 && r[..4] == (if hideZeroBalances then "Show" else "Hide")
    ensures r[4..] == " 0 Balance"
  {
    (if hideZeroBalances then "Show" else "Hide") + " 0 Balance"
  }

  /** "No assets to display" replaces an empty grid. */
  predicate EmptyShown(assets: seq<Asset>, hideZeroBalances: bool) {
    |Visible(assets, hideZeroBalances)| == 0
  }

  /** The "Show all assets" button sits in the empty state while hiding. */
  predicate ShowAllShown(assets: seq<Asset>, hideZeroBalances: bool) {
    EmptyShown(assets, hideZeroBalances) && hideZeroBalances
  }

  /** The button appears exactly when zero balances are hidden and no asset
      has a positive balance; pressing it (the toggle) brings every asset
      back. */
  lemma ShowAllWhenNothingPositive(assets: seq<Asset>, hideZeroBalances: bool)
    ensures ShowAllShown(assets, hideZeroBalances) <==>
      hideZeroBalances && forall i :: 0 <= i < |assets| ==> assets[i].balance <= 0.0
    ensures ShowAllShown(assets, hideZeroBalances) ==> Visible(assets, !hideZeroBalances) == assets
  {
    if hideZeroBalances {
      var r := Visible(assets, true);
      if |r| == 0 {
        forall i | 0 <= i < |assets| ensures assets[i].balance <= 0.0 {
          assert assets[i] in assets;
        }
      } else {
        assert r[0] in r;
      }
    }
  }

  /** `formatBalance`: the eight-decimal rendering (an input here) without
      trailing zeros, a space, the symbol. */
  function BalanceText(fixed8: string, symbol: string): (r: string)
    ensures |r| == |StripZeros(fixed8)| + 1 + |symbol|
    ensures r[..|StripZeros(fixed8)|] == StripZeros(fixed8) && r[|r| - |symbol|..] == symbol
  {
    StripZeros(fixed8) + " " + symbol
  }

  /** The card's base-currency amount cut at the decimal point: the whole
      part, and the decimals or "00" when the rendering has none. */
  function BaseParts(formatted: string): (parts: (string, string))
    ensures '.' !in parts.0
  {
    var pieces := Split(formatted, '.');
    (pieces[0], if |pieces| >= 2 then pieces[1] else "00")
  }

  /** A rendering with one decimal point reads back from its two parts, and
      one without any is all whole part. */
  lemma BasePartsReadBack(whole: string, decimals: string)
    requires '.' !in whole && '.' !in decimals
    ensures BaseParts(whole + "." + decimals) == (whole, decimals)
    ensures BaseParts(whole) == (whole, "00")
  {
    SplitTwo(whole, '.', decimals);
    SplitNoSep(whole, '.');
  }

  /** `formatPriceChange`: "+" before a change of zero or more, then the
      two-decimal rendering (an input here, carrying its own "-"). */
  function ChangeText(change: real, fixed2: string): (r: string)
    ensures change >= 0.0 ==> |r| == |fixed2| + 2 && r[0] == '+' && r[1..|r| - 1] == fixed2
    ensures change < 0.0 ==> |r| == |fixed2| + 1 && r[..|fixed2|] == fixed2
    ensures r[|r| - 1] == '%'
  {
    (if change >= 0.0 then "+" else "") + fixed2 + "%"
  }

  /** The change's colour class. */
  function ChangeColor(change: real): (r: string)
    ensures r == "text-green-500" <==> change >= 0.0
    ensures r == "text-rose-500" <==> change < 0.0
  {
    if change >= 0.0 then "text-green-500" else "text-rose-500"
  }

  /** The colour and the sign agree, zero included: green exactly when a
      "+" is shown, whatever the rendering (when it does not itself start
      with "+"). */
  lemma ColorMatchesSign(change: real, fixed2: string)
    requires fixed2 == "" || fixed2[0] != '+'
    ensures ChangeColor(change) == "text-green-500" <==> ChangeText(change, fixed2)[0] == '+'
  {
  }
}
