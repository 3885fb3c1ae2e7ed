/** How the wallet store turns the backend's transaction records into the
    list the UI shows (src/stores/wallet.ts, `loadTransactions` and
    `markAllTransactionsSeen`): field defaults, timestamp normalisation,
    newest-first ordering and the seen flags. */
module StoreTransactions {
  import opened Wrappers
  import opened Text
  import opened StoreTables

  /** A timestamp field as it arrives: missing (null/undefined), a number
      (after `Number(..)`), or a string given by its two coercions
      `Number(s)` and `Date.parse(s)`. */
  datatype RawTs = Absent | Numeric(n: JsNumber) | Textual(asNumber: JsNumber, asDate: JsNumber)

  /** A backend transaction record; "" stands for a missing or falsy string
      field, and amounts are already coerced with `Number(x || 0)`. */
  datatype RawTx = RawTx(
    id: string, altId: string, txType: string, direction: string, chain: string,
    amount: real, amountUSD: real, timestamp: RawTs, createdAt: RawTs,
    status: string, hash: string, txid: string,
    fromAddress: string, sender: string, toAddress: string, recipient: string)

  /** The store's transaction; `timestamp` is in milliseconds. */
  datatype Transaction = Transaction(
    id: string, txType: string, asset: string, amount: real, amountUSD: real,
    timestamp: real, status: string, hash: string, fromAddress: string,
    toAddress: string, seen: bool)

  /** JavaScript truthiness of a number. */
  predicate NumTruthy(n: JsNumber) {
    match n
    case NaN => false
    case Infinity(_) => true
    case Finite(v) => v != 0.0
  }

  /** The record's timestamp, else its creation time, else the clock, then
      coerced: a string is read as a number unless that is falsy, and then
      as a date. */
  function TimestampNumber(timestamp: RawTs, createdAt: RawTs, now: real): (t: JsNumber)
    ensures timestamp.Numeric? ==> t == timestamp.n
    ensures timestamp.Absent? && createdAt.Absent? ==> t == Finite(now)
  {
    var raw := if !timestamp.Absent? then timestamp else if !createdAt.Absent? then createdAt else Numeric(Finite(now));
    match raw
    case Textual(asNumber, asDate) => if NumTruthy(asNumber) then asNumber else asDate
    case Numeric(n) => n
    case Absent => Finite(now)
  }

  /** Milliseconds: a finite value below 10^12 is taken as seconds, a larger
      one as milliseconds, and anything not finite becomes the current time. */
  function NormalizeMs(t: JsNumber, now: real): real {
    if t.Finite? then (if t.value < 1_000_000_000_000.0 then t.value * 1000.0 else t.value) else now
  }

  /** The same instant given in seconds or in milliseconds normalises to the
      same value, for every instant from September 2001 (10^9 s) until the
      seconds reading itself reaches 10^12. */
  lemma SecondsAndMillisAgree(seconds: real, now: real)
    requires 1_000_000_000.0 <= seconds < 1_000_000_000_000.0
    ensures NormalizeMs(Finite(seconds), now) == NormalizeMs(Finite(seconds * 1000.0), now)
  {
  }

  /** Normalised times of finite inputs from 10^9 on are all at least 10^12
      milliseconds; a non-finite input is replaced by the clock. */
  lemma NormalizeMsRange(t: JsNumber, now: real)
    ensures t.Finite? && t.value >= 1_000_000_000.0 ==> NormalizeMs(t, now) >= 1_000_000_000_000.0
    ensures !t.Finite? ==> NormalizeMs(t, now) == now
  {
  }

  /** The record's own type when it has one; otherwise "receive" for an
      incoming direction and "send" for anything else. */
  function TxTypeOf(txType: string, direction: string): (r: string)
    ensures r != ""
    ensures txType != "" ==> r == txType
    ensures txType == "" ==> (r == "receive" <==> direction == "in")
    ensures txType == "" ==> (r == "send" <==> direction != "in")
  {
    Or(txType, if direction == "in" then "receive" else "send")
  }

  /** One record mapped to the store's shape; `fallbackId` stands for
      `String(Math.random())`. */
  function Normalize(raw: RawTx, now: real, fallbackId: string): (tx: Transaction)
    ensures tx.id == Or(raw.id, Or(raw.altId, fallbackId))
    ensures tx.txType == TxTypeOf(raw.txType, raw.direction)
    ensures tx.asset == MapChainToSymbol(Or(raw.chain, "bitcoin"))
    ensures tx.timestamp == NormalizeMs(TimestampNumber(raw.timestamp, raw.createdAt, now), now)
    ensures tx.status != "" && (raw.status != "" ==> tx.status == raw.status)
    ensures raw.status == "" ==> tx.status == "completed"
    ensures tx.fromAddress == Or(raw.fromAddress, raw.sender)
    ensures tx.toAddress == Or(raw.toAddress, raw.recipient)
    ensures tx.hash == Or(raw.hash, raw.txid)
    ensures tx.amount == raw.amount && tx.amountUSD == raw.amountUSD
    ensures !tx.seen
  {
    Transaction(
      Or(raw.id, Or(raw.altId, fallbackId)),
      TxTypeOf(raw.txType, raw.direction),
      MapChainToSymbol(Or(raw.chain, "bitcoin")),
      raw.amount, raw.amountUSD,
      NormalizeMs(TimestampNumber(raw.timestamp, raw.createdAt, now), now),
      Or(raw.status, "completed"),
      Or(raw.hash, raw.txid),
      Or(raw.fromAddress, raw.sender),
      Or(raw.toAddress, raw.recipient),
      false)
  }

  /** `transactions.map(...)`; `randomId(i)` is the random id drawn for
      record `i` when it has none. */
  function NormalizeAll(raws: seq<RawTx>, now: real, randomId: nat -> string): (txs: seq<Transaction>)
    ensures |txs| == |raws|
    ensures forall i :: 0 <= i < |raws| ==> txs[i] == Normalize(raws[i], now, randomId(i))
  {
    seq(|raws|, i requires 0 <= i < |raws| => Normalize(raws[i], now, randomId(i)))
  }

  // ---- newest first --------------------------------------------------------

  predicate NewestFirst(txs: seq<Transaction>) {
    forall i, j :: 0 <= i < j < |txs| ==> txs[i].timestamp >= txs[j].timestamp
  }

  /** Inserts `x` after every element at least as new (so equal timestamps
      keep their arrival order). */
  function Insert(x: Transaction, s: seq<Transaction>): (r: seq<Transaction>)
    requires NewestFirst(s)
    ensures NewestFirst(r)
    ensures multiset(r) == multiset(s) + multiset{x}
    ensures |r| == |s| + 1
    ensures r[0] == x || (|s| > 0 && r[0] == s[0])
  {
    if |s| == 0 then [x]
    else if s[0].timestamp < x.timestamp then
      ConsNewestFirst(x, s);
      [x] + s
    else
      var rest := Insert(x, s[1..]);
      assert s == [s[0]] + s[1..];
      assert rest[0].timestamp <= s[0].timestamp;
      ConsNewestFirst(s[0], rest);
      [s[0]] + rest
  }

  /** A record no older than the head of a sorted list can go in front. */
  lemma ConsNewestFirst(a: Transaction, t: seq<Transaction>)
    requires NewestFirst(t)
    requires t == [] || t[0].timestamp <= a.timestamp
    ensures NewestFirst([a] + t)
  {
    var r := [a] + t;
    forall i, j | 0 <= i < j < |r|
      ensures r[i].timestamp >= r[j].timestamp
    {
      if i == 0 { assert r[j] == t[j - 1]; }
      else { assert r[i] == t[i - 1] && r[j] == t[j - 1]; }
    }
  }

  /** The store's sort by descending timestamp: stable, newest first. */
  function SortNewestFirst(txs: seq<Transaction>): (r: seq<Transaction>)
    ensures NewestFirst(r)
    ensures multiset(r) == multiset(txs)
    ensures |r| == |txs|
  {
    if |txs| == 0 then []
    else
      var init := txs[..|txs| - 1];
      assert txs == init + [txs[|txs| - 1]];
      Insert(txs[|txs| - 1], SortNewestFirst(init))
  }

  // ---- seen flags ----------------------------------------------------------

  /** `Boolean(seenMap[id])`. */
  predicate IsSeen(seenMap: map<string, bool>, id: string) {
    id in seenMap && seenMap[id]
  }

  /** `withSeen`: each record's flag read from the map, nothing else changed. */
  function WithSeen(txs: seq<Transaction>, seenMap: map<string, bool>): (r: seq<Transaction>)
    ensures |r| == |txs|
    ensures forall i :: 0 <= i < |txs| ==> r[i] == txs[i].(seen := IsSeen(seenMap, txs[i].id))
  {
    seq(|txs|, i requires 0 <= i < |txs| => txs[i].(seen := IsSeen(seenMap, txs[i].id)))
  }

  /** Merging flags keeps the order: only `seen` changes. */
  lemma WithSeenKeepsOrder(txs: seq<Transaction>, seenMap: map<string, bool>)
    requires NewestFirst(txs)
    ensures NewestFirst(WithSeen(txs, seenMap))
  {
    var r := WithSeen(txs, seenMap);
    assert forall i :: 0 <= i < |txs| ==> r[i].timestamp == txs[i].timestamp;
  }

  /** The number of records not seen yet. */
  function CountUnseen(txs: seq<Transaction>): (n: nat)
    ensures n <= |txs|
    ensures n == 0 <==> forall i :: 0 <= i < |txs| ==> txs[i].seen
  {
    if |txs| == 0 then 0
    else CountUnseen(txs[..|txs| - 1]) + (if txs[|txs| - 1].seen then 0 else 1)
  }

  function TxIds(txs: seq<Transaction>): set<string> {
    set t | t in txs :: t.id
  }

  /** `markAllTransactionsSeen`: the new seen map and the updated list. */
  function MarkAllSeen(txs: seq<Transaction>, seenMap: map<string, bool>)
    : (out: (map<string, bool>, seq<Transaction>))
    ensures out.0.Keys == seenMap.Keys + TxIds(txs)
    ensures forall i :: 0 <= i < |txs| ==> IsSeen(out.0, txs[i].id)
    ensures forall k :: k in seenMap && k !in TxIds(txs) ==> out.0[k] == seenMap[k]
    ensures |out.1| == |txs|
    ensures forall i :: 0 <= i < |txs| ==> out.1[i] == txs[i].(seen := true)
    ensures CountUnseen(out.1) == 0
  {
    var ids := TxIds(txs);
    var newMap := map k | k in seenMap.Keys + ids :: if k in ids then true else seenMap[k];
    assert forall i :: 0 <= i < |txs| ==> txs[i].id in ids;
    (newMap, seq(|txs|, i requires 0 <= i < |txs| => txs[i].(seen := true)))
  }

  /** Marking twice is marking once. */
  lemma MarkAllSeenIdempotent(txs: seq<Transaction>, seenMap: map<string, bool>)
    ensures var (m1, t1) := MarkAllSeen(txs, seenMap);
      MarkAllSeen(t1, m1) == (m1, t1)
  {
    var (m1, t1) := MarkAllSeen(txs, seenMap);
    MarkedIdsKept(txs, seenMap);
    RemarkKeepsMap(t1, m1);
    RemarkKeepsList(t1, m1);
  }

  /** Marking keeps the ids and leaves every record seen, in the list and in
      the map. */
  lemma MarkedIdsKept(txs: seq<Transaction>, seenMap: map<string, bool>)
    ensures var (m1, t1) := MarkAllSeen(txs, seenMap);
      TxIds(t1) == TxIds(txs) && forall i :: 0 <= i < |t1| ==> t1[i].seen && IsSeen(m1, t1[i].id)
  {
    var (m1, t1) := MarkAllSeen(txs, seenMap);
    forall id | id in TxIds(txs) ensures id in TxIds(t1) {
      var i :| 0 <= i < |txs| && txs[i].id == id;
      assert t1[i].id == id;
    }
  }

  /** Marking records that are all seen in the map leaves the map as it is. */
  lemma RemarkKeepsMap(t: seq<Transaction>, m: map<string, bool>)
    requires forall i :: 0 <= i < |t| ==> IsSeen(m, t[i].id)
    ensures MarkAllSeen(t, m).0 == m
  {
    var m2 := MarkAllSeen(t, m).0;
    assert TxIds(t) <= m.Keys;
    forall k | k in m
      ensures m2[k] == m[k]
    {
      if k in TxIds(t) {
        var i :| 0 <= i < |t| && t[i].id == k;
        assert IsSeen(m2, t[i].id);
      }
    }
  }

  /** Marking records that are all seen leaves the list as it is. */
  lemma RemarkKeepsList(t: seq<Transaction>, m: map<string, bool>)
    requires forall i :: 0 <= i < |t| ==> t[i].seen
    ensures MarkAllSeen(t, m).1 == t
  {
  }

  /** After marking, merging the seen map into any reload of the same
      records leaves nothing unseen. */
  lemma ReloadAfterMarkAllSeen(txs: seq<Transaction>, seenMap: map<string, bool>, reloaded: seq<Transaction>)
    requires forall i :: 0 <= i < |reloaded| ==> reloaded[i].id in TxIds(txs)
    ensures CountUnseen(WithSeen(reloaded, MarkAllSeen(txs, seenMap).0)) == 0
  {
    var m := MarkAllSeen(txs, seenMap).0;
    forall i | 0 <= i < |reloaded|
      ensures IsSeen(m, reloaded[i].id)
    {
      var j :| 0 <= j < |txs| && txs[j].id == reloaded[i].id;
    }
  }
}
