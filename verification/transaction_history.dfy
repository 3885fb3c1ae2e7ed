/** The recent-transactions card (src/components/TransactionHistory/TransactionHistory.tsx):
    which records are listed, the "See all" button and the empty state, the
    sign of the amounts, the relative time buckets and the type label. */
module TransactionHistory {
  import opened Text
  import opened Seqs
  import opened StoreTransactions
  import Fiats

  /** `s.slice(0, n)`: a negative end counts from the back. */
  function SliceTo<T>(s: seq<T>, n: int): (r: seq<T>)
    ensures |r| <= |s| && r == s[..|r|]
    ensures n >= 0 ==> |r| == Min(n, |s|)
    ensures n < 0 ==> |r| == if |s| + n > 0 then |s| + n else 0
  {
    if n < 0 then (if |s| + n > 0 then s[..|s| + n] else [])
    else s[..Min(n, |s|)]
  }

  const DefaultMaxItems := 5

  /** What the card renders: the listed records, whether "See all" is shown,
      and whether the empty state replaces the list. */
  datatype Card = Card(shown: seq<Transaction>, seeAll: bool, empty: bool)

  function HistoryCard(txs: seq<Transaction>, maxItems: int): (c: Card)
    ensures |c.shown| <= |txs| && c.shown == txs[..|c.shown|]
    ensures maxItems >= 0 ==> |c.shown| == Min(maxItems, |txs|)
    ensures c.empty <==> c.shown == []
    ensures c.seeAll <==> !c.empty && |txs| > maxItems
    ensures maxItems > 0 ==> (c.seeAll <==> |txs| > maxItems)
  {
    var shown := SliceTo(txs, maxItems);
    if shown == [] then Card([], false, true)
    else Card(shown, |txs| > maxItems, false)
  }

  /** With the default of five, the card lists the five newest records of a
      list sorted newest first, and those are newer than every hidden one. */
  lemma DefaultCardShowsNewest(txs: seq<Transaction>)
    requires NewestFirst(txs)
    ensures var c := HistoryCard(txs, DefaultMaxItems);
      |c.shown| == Min(5, |txs|)
      && forall i, j :: 0 <= i < |c.shown| <= j < |txs| ==> c.shown[i].timestamp >= txs[j].timestamp
  {
    var c := HistoryCard(txs, DefaultMaxItems);
    forall i, j | 0 <= i < |c.shown| <= j < |txs|
      ensures c.shown[i].timestamp >= txs[j].timestamp
    {
      assert c.shown[i] == txs[i];
    }
  }

  /** "+" for incoming records (receive and buy), "-" for everything else. */
  function Sign(txType: string): (r: string)
    ensures r == "+" || r == "-"
    ensures r == "+" <==> txType == "receive" || txType == "buy"
  {
    if txType == "receive" || txType == "buy" then "+" else "-"
  }

  /** The crypto amount line: the sign, then the amount's eight-decimal
      rendering (an input here) with its trailing zeros removed. */
  function AmountText(txType: string, fixed8: string): (r: string)
    ensures |r| >= 1 && r[..1] == Sign(txType)
    ensures r[1..] == StripZeros(fixed8)
  {
    Sign(txType) + StripZeros(fixed8)
  }

  /** The fiat line: the sign, the base currency's symbol ("" when the
      currency has none), then the two-decimal amount (an input here). */
  function FiatText(txType: string, baseCurrency: string, fixed2: string): (r: string)
    ensures |r| == 1 + |Fiats.SymbolOrEmpty(baseCurrency)| + |fixed2|
    ensures r[..1] == Sign(txType) && r[1..|r| - |fixed2|] == Fiats.SymbolOrEmpty(baseCurrency)
    ensures r[|r| - |fixed2|..] == fixed2
  {
    Sign(txType) + Fiats.SymbolOrEmpty(baseCurrency) + fixed2
  }

  /** Both amount lines of a record carry the same sign. */
  lemma AmountLinesAgree(txType: string, fixed8: string, baseCurrency: string, fixed2: string)
    ensures AmountText(txType, fixed8)[0] == FiatText(txType, baseCurrency, fixed2)[0]
  {
  }

  // ---- relative time ---------------------------------------------------------

  /** The relative-time buckets; the locale date past a week is not modelled. */
  datatype Ago = JustNow | MinutesAgo(m: int) | HoursAgo(h: int) | DaysAgo(d: int) | OnDate

  const MinuteMs: real := 60000.0

  /** `formatDate`: whole minutes elapsed (rounded down), then whole hours
      and days by further rounding down; future instants are "Just now". */
  function FormatDate(now: real, ts: real): Ago {
    var m := ((now - ts) / MinuteMs).Floor;
    if m < 1 then JustNow
    else if m < 60 then MinutesAgo(m)
    else
      var h := m / 60;
      if h < 24 then HoursAgo(h)
      else
        var d := h / 24;
        if d < 7 then DaysAgo(d) else OnDate
  }

  /** The text shown for a bucket; the locale date is passed in. */
  function AgoText(a: Ago, localeDate: string): string {
    match a
    case JustNow => "Just now"
    case MinutesAgo(m) => IntToString(m) + "m ago"
    case HoursAgo(h) => IntToString(h) + "h ago"
    case DaysAgo(d) => IntToString(d) + "d ago"
    case OnDate => localeDate
  }

  /** Rounding down twice is rounding down once. */
  lemma FloorTwice(y: real, b: int)
    requires b > 0
    ensures y.Floor / b == (y / b as real).Floor
  {
    var m := y.Floor;
    var q := m / b;
    var bb := b as real;
    assert q * b <= m < q * b + b;
    assert (q * b) as real <= y < (q * b + b) as real;
    assert (q as real) * bb <= y < (q as real + 1.0) * bb;
    DivBounds(y, bb, q as real);
  }

  lemma DivBounds(y: real, b: real, q: real)
    requires b > 0.0 && q * b <= y < (q + 1.0) * b
    ensures q <= y / b < q + 1.0
  {
    var r := y / b;
    assert r * b == y;
    if r < q { ScaleBelow(r, q, b); }
    if r >= q + 1.0 { ScaleBelow(q + 1.0, r, b); }
  }

  lemma ScaleBelow(x: real, z: real, b: real)
    requires b > 0.0 && x < z
    ensures x * b < z * b
  {
  }

  /** The buckets read directly off the elapsed time: each bucket covers one
      range of milliseconds and shows the elapsed time rounded down to its
      unit. */
  lemma FormatDateRanges(now: real, ts: real)
    ensures var e, a := now - ts, FormatDate(now, ts);
      && (a == JustNow <==> e < 60000.0)
      && (a.MinutesAgo? <==> 60000.0 <= e < 3600000.0)
      && (a.HoursAgo? <==> 3600000.0 <= e < 86400000.0)
      && (a.DaysAgo? <==> 86400000.0 <= e < 604800000.0)
      && (a == OnDate <==> 604800000.0 <= e)
      && (a.MinutesAgo? ==> 1 <= a.m < 60 && a.m == (e / 60000.0).Floor)
      && (a.HoursAgo? ==> 1 <= a.h < 24 && a.h == (e / 3600000.0).Floor)
      && (a.DaysAgo? ==> 1 <= a.d < 7 && a.d == (e / 86400000.0).Floor)
  {
    var e := now - ts;
    var m := (e / MinuteMs).Floor;
    FloorTwice(e / MinuteMs, 60);
    assert e / MinuteMs / 60.0 == e / 3600000.0;
    FloorTwice(e / 3600000.0, 24);
    assert e / 3600000.0 / 24.0 == e / 86400000.0;
    FloorBelow(e, 60000.0, 1);
    FloorBelow(e, 3600000.0, 1);
    FloorBelow(e, 86400000.0, 1);
    FloorBelow(e, 86400000.0, 7);
    FloorBelow(e, 60000.0, 60);
  }

  /** Below `k` whole units exactly when below `k` units. */
  lemma FloorBelow(e: real, unit: real, k: int)
    requires unit > 0.0
    ensures (e / unit).Floor < k <==> e < k as real * unit
  {
    var f := e / unit;
    assert f * unit == e;
    if e < k as real * unit {
      assert f < k as real;
    } else {
      assert f >= k as real;
    }
  }

  /** The relative time never goes backwards as time passes. */
  lemma FormatDateMonotone(now1: real, now2: real, ts: real)
    requires now1 <= now2
    ensures Rank(FormatDate(now1, ts)) <= Rank(FormatDate(now2, ts))
  {
    FormatDateRanges(now1, ts);
    FormatDateRanges(now2, ts);
  }

  function Rank(a: Ago): nat {
    match a
    case JustNow => 0
    case MinutesAgo(_) => 1
    case HoursAgo(_) => 2
    case DaysAgo(_) => 3
    case OnDate => 4
  }

  /** The type with its first letter upper-cased. */
  function TypeLabel(txType: string): (r: string)
    ensures |r| == |txType|
    ensures txType != "" ==> r[0] == UpperChar(txType[0]) && r[1..] == txType[1..]
    ensures Lower(r) == Lower(txType)
  {
    if txType == "" then "" else Upper(txType[..1]) + txType[1..]
  }
}
