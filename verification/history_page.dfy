/** The full transaction history page (pages/HistoryPage/HistoryPage.tsx):
    one row per store record with its title, signed amount and date, the
    empty message, and the navigation to the details page. */
module HistoryPage {
  import opened Wrappers
  import opened Text
  import opened StoreTransactions
  import TransactionHistory

  /** A row of the list; `raw` is the store record it was made from. */
  datatype Item = Item(id: string, title: string, desc: string, date: string, time: string, raw: Transaction)

  /** The title's first word. */
  function TitleWord(txType: string): (r: string)
    ensures r == "Sent" <==> txType == "send"
    ensures r == "Received" <==> txType == "receive"
    ensures r == "Buy" <==> txType != "send" && txType != "receive"
    ensures r != "" && NoSpace(r)
  {
    if txType == "send" then "Sent" else if txType == "receive" then "Received" else "Buy"
  }

  /** The sign of the row's amount: "-" for a send, "+" for anything else. */
  function DescSign(txType: string): (r: string)
    ensures r == "-" <==> txType == "send"
    ensures r == "+" <==> txType != "send"
  {
    if txType == "send" then "-" else "+"
  }

  /** The row's title: the type word, a space, the asset. */
  function Title(tx: Transaction): string {
    TitleWord(tx.txType) + " " + tx.asset
  }

  /** The title reads back as its type word and its asset: the first space
      separates them. */
  lemma TitleReadsBack(tx: Transaction)
    ensures var t := Title(tx); var k := IndexOf(t, ' ');
      k < |t| && t[..k] == TitleWord(tx.txType) && t[k + 1..] == tx.asset
  {
    var w := TitleWord(tx.txType);
    IndexOfAfter(w, ' ', tx.asset);
    assert Title(tx) == w + [' '] + tx.asset;
  }

  /** The row's description: the sign, the amount's eight-decimal rendering
      (an input here) with trailing zeros removed, a space, the asset. */
  function Desc(tx: Transaction, fixed8: string): (r: string)
    ensures |r| > |tx.asset| + 1
    ensures r[..1] == DescSign(tx.txType)
    ensures r[|r| - |tx.asset|..] == tx.asset
  {
    DescSign(tx.txType) + StripZeros(fixed8) + " " + tx.asset
  }

  /** The row and the home card sign receive, buy and send records alike;
      every other type is "+" here and "-" on the card. */
  lemma DescSignAgainstCard(txType: string)
    ensures txType == "send" || txType == "receive" || txType == "buy" ==>
      DescSign(txType) == TransactionHistory.Sign(txType)
    ensures txType != "send" && txType != "receive" && txType != "buy" ==>
      DescSign(txType) != TransactionHistory.Sign(txType)
  {
  }

  /** A row's date and time; both empty for a missing or invalid date. */
  datatype When = When(date: string, time: string)

  /** `fmt`: the locale renderings of a valid instant (inputs here), or two
      empty texts when there is no valid date. */
  function Fmt(timestamp: Option<real>, dateText: real -> string, timeText: real -> string): (w: When)
    ensures timestamp.None? ==> w == When("", "")
    ensures timestamp.Some? ==> w == When(dateText(timestamp.value), timeText(timestamp.value))
  {
    match timestamp
    case None => When("", "")
    case Some(t) => When(dateText(t), timeText(t))
  }

  /** One record's row. The store's timestamp is always a valid date. */
  function ItemOf(tx: Transaction, fixed8: string, dateText: real -> string, timeText: real -> string): (it: Item)
    ensures it.id == tx.id && it.raw == tx
    ensures it.title == Title(tx) && it.desc == Desc(tx, fixed8)
  {
    var w := Fmt(Some(tx.timestamp), dateText, timeText);
    Item(tx.id, Title(tx), Desc(tx, fixed8), w.date, w.time, tx)
  }

  /** `items`: one row per record, in the store's order; `fixed8(i)` is the
      rendering of record `i`'s amount. */
  function Items(txs: seq<Transaction>, fixed8: nat -> string, dateText: real -> string, timeText: real -> string)
    : (items: seq<Item>)
    ensures |items| == |txs|
    ensures forall i :: 0 <= i < |txs| ==> items[i] == ItemOf(txs[i], fixed8(i), dateText, timeText)
  {
    seq(|txs|, i requires 0 <= i < |txs| => ItemOf(txs[i], fixed8(i), dateText, timeText))
  }

  /** The rows carry the records' ids in order, so distinct ids give
      distinct row keys, and each row links back to its own record. */
  lemma ItemsKeepIdsAndOrder(txs: seq<Transaction>, fixed8: nat -> string, dateText: real -> string, timeText: real -> string)
    ensures var items := Items(txs, fixed8, dateText, timeText);
      (forall i :: 0 <= i < |txs| ==> items[i].id == txs[i].id && items[i].raw == txs[i])
      && ((forall i, j :: 0 <= i < j < |txs| ==> txs[i].id != txs[j].id) ==>
          (forall i, j :: 0 <= i < j < |items| ==> items[i].id != items[j].id))
  {
  }

  /** A row's sign is "-" exactly for a sent record, and the row's title
      then says "Sent". */
  lemma RowSignMatchesTitle(txs: seq<Transaction>, fixed8: nat -> string, dateText: real -> string, timeText: real -> string, i: nat)
    requires i < |txs|
    ensures var it := Items(txs, fixed8, dateText, timeText)[i];
      it.desc[0] == '-' <==> it.title[..4] == "Sent"
  {
    var it := Items(txs, fixed8, dateText, timeText)[i];
    var w := TitleWord(txs[i].txType);
    assert it.title == w + " " + txs[i].asset;
    assert it.desc[..1] == DescSign(txs[i].txType);
    if w != "Sent" {
      assert it.title[..4] != "Sent" by {
        if w == "Buy" { assert it.title[3] == ' '; }
        else { assert it.title[..4] == "Rece"; }
      }
    }
  }

  /** "No transactions yet" is shown only when the load has finished and
      there is no row. */
  predicate EmptyMessageShown(loading: bool, items: seq<Item>) {
    !loading && |items| == 0
  }

  lemma EmptyMessageIff(loading: bool, txs: seq<Transaction>, fixed8: nat -> string, dateText: real -> string, timeText: real -> string)
    ensures EmptyMessageShown(loading, Items(txs, fixed8, dateText, timeText)) <==> !loading && txs == []
  {
  }

  /** The row's icon, chosen from the same type as the title. */
  function Icon(txType: string): (r: string)
    ensures r == "/send-icon.png" <==> TitleWord(txType) == "Sent"
    ensures r == "/receive-icon.png" <==> TitleWord(txType) == "Received"
    ensures r == "/transaction-history.png" <==> TitleWord(txType) == "Buy"
  {
    if txType == "send" then "/send-icon.png"
    else if txType == "receive" then "/receive-icon.png"
    else "/transaction-history.png"
  }

  /** A click on a row: the details route with the row's id, and the store
      record itself as the navigation state. */
  function Open(it: Item): (out: (string, Transaction))
    ensures |out.0| == 13 + |it.id| && out.0[13..] == it.id && out.0[..13] == "/transaction/"
    ensures out.1 == it.raw
  {
    ("/transaction/" + it.id, it.raw)
  }
}
