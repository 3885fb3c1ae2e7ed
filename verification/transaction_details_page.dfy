/** The payment details page (src/pages/TransactionDetailsPage/TransactionDetailsPage.tsx),
    as written: it reads a record shaped like the backend's raw transaction
    (`direction`, `chain`, a timestamp in seconds) from the navigation state.
    The history page hands it the store's record instead, which carries
    none of those; `RecordShownAsIncoming` states what the page then shows
    and `RecordDetails` is the page reading the store's fields. */
module TransactionDetailsPage {
  import opened Wrappers
  import opened Text
  import opened Seqs
  import opened StoreTransactions
  import HistoryPage

  /** The fields the page reads from the navigation state. A missing or
      falsy string is ""; a missing or zero number is 0.0. `timestamp` is
      whatever number the field multiplies as, and `hasTimestamp` whether
      the field is truthy: a number other than zero, or any date, even one
      at instant 0. */
  datatype DetailState = DetailState(
    direction: string, chain: string, amount: real, status: string,
    hash: string, txid: string, timestamp: real, hasTimestamp: bool,
    fromAddress: string, from: string, toAddress: string, to: string)

  /** `location.state || {}` with no state: every field missing. */
  const NoState := DetailState("", "", 0.0, "", "", "", 0.0, false, "", "", "", "")

  /** What the page shows. `timeMs` is the instant handed to the locale
      formatter, `None` for the empty text. */
  datatype Details = Details(
    isOut: bool, symbol: string, amountStr: string, statusLabel: string,
    fundsUsed: string, shortHash: string, timeMs: Option<real>,
    description: string, from: string, to: string)

  /** The unit after the amount: "USDT" for the TRC-20 token, otherwise the
      chain name upper-cased ("" without one). */
  function Symbol(chain: string): (r: string)
    ensures chain == "usdt-trc20" ==> r == "USDT"
    ensures chain != "usdt-trc20" ==> r == Upper(chain)
    ensures Upper(r) == r
  {
    UpperIdempotent(chain);
    if chain == "usdt-trc20" then "USDT" else Upper(chain)
  }

  /** "confirmed" reads "Successful"; any other status verbatim. */
  function StatusLabel(status: string): (r: string)
    ensures r == "" <==> status == ""
    ensures status == "confirmed" ==> r == "Successful"
    ensures status != "confirmed" ==> r == status
  {
    if status == "" then "" else if status == "confirmed" then "Successful" else status
  }

  /** `s.slice(-n)` for a positive `n`: the last `n` elements, or all. */
  function Last<T>(s: seq<T>, n: nat): (r: seq<T>)
    ensures |r| == Min(n, |s|)
    ensures r == s[|s| - |r|..]
  {
    if n < |s| then s[|s| - n..] else s
  }

  /** The shortened hash: the first six characters, "...", the last four;
      "" without a hash. */
  function ShortHash(full: string): (r: string)
    ensures r == "" <==> full == ""
    ensures full != "" ==> |r| == Min(6, |full|) + 3 + Min(4, |full|)
    ensures full != "" ==> r[..Min(6, |full|)] == full[..Min(6, |full|)]
    ensures full != "" ==> r[|r| - Min(4, |full|)..] == full[|full| - Min(4, |full|)..]
  {
    if full == "" then "" else Take(full, 6) + "..." + Last(full, 4)
  }

  /** Two hashes that agree on their first six and last four characters
      shorten alike: the middle is never shown. */
  lemma ShortHashHidesMiddle(h1: string, h2: string)
    requires |h1| >= 10 && |h2| >= 10
    requires h1[..6] == h2[..6] && h1[|h1| - 4..] == h2[|h2| - 4..]
    ensures ShortHash(h1) == ShortHash(h2) && |ShortHash(h1)| == 13
  {
  }

  /** `tx.fromAddress || tx.from || '-'`, and likewise for the recipient. */
  function PartyText(primary: string, secondary: string): (r: string)
    ensures r != ""
    ensures primary != "" ==> r == primary
    ensures primary == "" && secondary != "" ==> r == secondary
    ensures primary == "" && secondary == "" ==> r == "-"
  {
    Or(Or(primary, secondary), "-")
  }

  /** The page's derivations from the navigation state; `amountText` is the
      number's `String(...)` rendering, an input here. */
  function DetailsOf(st: DetailState, amountText: string): (d: Details)
    ensures d.isOut <==> st.direction == "out"
    ensures d.description == (if d.isOut then "Send" else "Receive")
    ensures d.amountStr == "" <==> st.amount == 0.0
    ensures d.fundsUsed == "" <==> st.amount == 0.0
    ensures d.amountStr != "" ==> d.amountStr[0] == (if d.isOut then '-' else '+') && d.amountStr[1..] == d.fundsUsed
    ensures d.fundsUsed != "" ==> d.fundsUsed == amountText + " " + d.symbol
    ensures d.shortHash == ShortHash(Or(st.hash, st.txid))
    ensures d.timeMs.Some? <==> st.hasTimestamp
    ensures st.hasTimestamp ==> d.timeMs == Some(st.timestamp * 1000.0)
    ensures d.symbol == Symbol(st.chain) && d.statusLabel == StatusLabel(st.status)
    ensures d.from == PartyText(st.fromAddress, st.from) && d.to == PartyText(st.toAddress, st.to)
  {
    var isOut := st.direction == "out";
    var symbol := Symbol(st.chain);
    var funds := amountText + " " + symbol;
    Details(
      isOut, symbol,
      if st.amount != 0.0 then (if isOut then "-" else "+") + funds else "",
      StatusLabel(st.status),
      if st.amount != 0.0 then funds else "",
      ShortHash(Or(st.hash, st.txid)),
      if st.hasTimestamp then Some(st.timestamp * 1000.0) else None,
      if isOut then "Send" else "Receive",
      PartyText(st.fromAddress, st.from),
      PartyText(st.toAddress, st.to))
  }

  /** Opened without a state, the page shows empty texts, "Receive" and
      "-" for both parties. */
  lemma NoStatePlaceholders(amountText: string)
    ensures var d := DetailsOf(NoState, amountText);
      d.amountStr == "" && d.fundsUsed == "" && d.statusLabel == "" && d.shortHash == ""
      && d.timeMs.None? && d.description == "Receive" && d.from == "-" && d.to == "-"
  {
  }

  /** The hash text put on the clipboard; `None` when there is no hash and
      the button does nothing. */
  function CopyHash(st: DetailState): (r: Option<string>)
    ensures r.None? <==> st.hash == "" && st.txid == ""
    ensures r.Some? ==> r.value == Or(st.hash, st.txid) && ShortHash(r.value) == DetailsOf(st, "").shortHash
  {
    var full := Or(st.hash, st.txid);
    if full == "" then None else Some(full)
  }

  // ---- the store's record as the navigation state ----------------------------

  /** The state the page receives from the history page: the store record,
      which has no `direction`, `chain`, `txid`, `from` or `to`, and whose
      timestamp is a date: always truthy, and multiplying as its
      milliseconds. */
  function StateOfRecord(tx: Transaction): (st: DetailState)
    ensures st.direction == "" && st.chain == "" && st.txid == "" && st.from == "" && st.to == ""
    ensures st.timestamp == tx.timestamp && st.hasTimestamp
    ensures st.amount == tx.amount && st.hash == tx.hash && st.status == tx.status
    ensures st.fromAddress == tx.fromAddress && st.toAddress == tx.toAddress
  {
    DetailState("", "", tx.amount, tx.status, tx.hash, "", tx.timestamp, true, tx.fromAddress, "", tx.toAddress, "")
  }

  /** As written, every record opened from the history page is shown as
      received, without a unit, and at a thousand times its instant; a
      record at instant 0 still shows a time. */
  lemma RecordShownAsIncoming(tx: Transaction, amountText: string)
    requires tx.amount != 0.0
    ensures var d := DetailsOf(StateOfRecord(tx), amountText);
      !d.isOut && d.description == "Receive" && d.symbol == ""
      && d.amountStr == "+" + amountText + " "
      && d.timeMs == Some(tx.timestamp * 1000.0)
      && (tx.timestamp != 0.0 ==> d.timeMs != Some(tx.timestamp))
  {
  }

  /** A sent bitcoin record, as the history page opens it. */
  const SentRecord := Transaction("t1", "send", "BTC", 0.5, 30000.0, 1700000000000.0,
                                  "completed", "abc", "me", "you", true)

  /** The sent record's row says "Sent" and "-", its details page
      "Receive" and "+". */
  lemma SentRecordShownAsReceived()
    ensures HistoryPage.Title(SentRecord)[..4] == "Sent"
    ensures HistoryPage.DescSign(SentRecord.txType) == "-"
    ensures DetailsOf(StateOfRecord(HistoryPage.Open(HistoryPage.ItemOf(SentRecord, "0.50000000", d => "", t => "")).1), "0.5").description == "Receive"
    ensures DetailsOf(StateOfRecord(SentRecord), "0.5").amountStr == "+0.5 "
  {
    var st := StateOfRecord(SentRecord);
    assert st.direction != "out";
  }

  /** The page reading the store's own fields: a send is outgoing, the
      unit is the record's asset and the timestamp is already in
      milliseconds. */
  function RecordDetails(tx: Transaction, amountText: string): (d: Details)
    ensures d.isOut <==> tx.txType == "send"
    ensures d.symbol == tx.asset
    ensures d.timeMs == Some(tx.timestamp)
    ensures d.amountStr == "" <==> tx.amount == 0.0
    ensures d.amountStr != "" ==> d.amountStr[..1] == HistoryPage.DescSign(tx.txType)
  {
    var isOut := tx.txType == "send";
    var funds := amountText + " " + tx.asset;
    Details(
      isOut, tx.asset,
      if tx.amount != 0.0 then (if isOut then "-" else "+") + funds else "",
      StatusLabel(tx.status),
      if tx.amount != 0.0 then funds else "",
      ShortHash(tx.hash),
      Some(tx.timestamp),
      if isOut then "Send" else "Receive",
      PartyText(tx.fromAddress, ""),
      PartyText(tx.toAddress, ""))
  }

  /** Read from the store's fields, the details page agrees with the row
      that opened it: same sign, "Send" exactly for a row titled "Sent",
      and the same instant as the row's date. */
  lemma RecordDetailsAgreeWithRow(tx: Transaction, fixed8: string, amountText: string, dateText: real -> string, timeText: real -> string)
    requires tx.amount != 0.0
    ensures var it := HistoryPage.ItemOf(tx, fixed8, dateText, timeText);
      var d := RecordDetails(HistoryPage.Open(it).1, amountText);
      d.amountStr[0] == it.desc[0]
      && (d.description == "Send" <==> HistoryPage.TitleWord(tx.txType) == "Sent")
      && it.date == dateText(d.timeMs.value) && it.time == timeText(d.timeMs.value)
  {
  }

  /** Apart from the direction, the unit and the time, the store's reading
      shows what the page as written shows. */
  lemma RecordDetailsKeepOtherFields(tx: Transaction, amountText: string)
    ensures var d, e := RecordDetails(tx, amountText), DetailsOf(StateOfRecord(tx), amountText);
      d.statusLabel == e.statusLabel && d.shortHash == e.shortHash && d.from == e.from && d.to == e.to
  {
  }
}
