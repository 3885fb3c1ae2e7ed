/** The wallet store's actions (src/stores/wallet.ts, the live code from
    line 414 on) as transitions over an immutable state. Every backend
    answer an action awaits is an argument; what the action sends, persists
    or schedules without awaiting is returned as a list of effects. */
module WalletStore {
  import opened Wrappers
  import opened Text
  import opened Seqs
  import opened StoreTables
  import opened StoreTransactions
  import Api
  import Price

  datatype KeyringItem = KeyringItem(id: string, labelText: string, createdAt: string)

  /** `activeKeyringId` is "" for null/undefined: every reader tests it for
      truthiness only. `socketOpen` is the module-level `socket` variable. */
  datatype State = State(
    wallets: seq<WalletItem>,
    keyrings: seq<KeyringItem>,
    activeKeyringId: string,
    baseCurrency: string,
    prices: map<string, real>,
    changes24h: map<string, real>,
    total: real,
    loading: bool,
    socketConnected: bool,
    socketOpen: bool,
    transactions: seq<Transaction>,
    transactionsLoading: bool,
    seenById: map<string, bool>,
    unseenCount: nat)

  const Initial := State([], [], "", "USD", map[], map[], 0.0, true, false, false, [], false, map[], 0)

  /** Work an action starts but does not wait for, or a request it makes. */
  datatype Effect =
    | Call(request: Api.Request)
    | AskPrices(query: Price.ProviderRequest)
    | LoadTransactions(deferred: bool)
    | PersistSeen(seen: map<string, bool>)

  /** The total shown is the sum over the wallets at the prices held. */
  predicate TotalConsistent(s: State) {
    s.total == Total(s.wallets, s.prices)
  }

  lemma InitialConsistent()
    ensures TotalConsistent(Initial)
  {
  }

  // ---- shared steps ----------------------------------------------------------

  /** Keyring-scoped wallets, falling back to the user-scoped list when the
      scoped call fails or returns none; a failed call counts as empty. */
  function LoadWallets(keyringId: string, scoped: Result<seq<WalletItem>, string>,
                       userScoped: Result<seq<WalletItem>, string>)
    : (out: (seq<WalletItem>, seq<Effect>))
    ensures scoped.Success? && scoped.value != [] ==> out.0 == scoped.value
    ensures !(scoped.Success? && scoped.value != []) ==> out.0 == (if userScoped.Success? then userScoped.value else [])
    ensures |out.1| == (if scoped.Success? && scoped.value != [] then 1 else 2)
    ensures out.1[0] == Call(Api.Request(Api.GET, Api.WalletsPath(keyringId), None))
    ensures forall k :: 0 <= k < |out.1| ==> out.1[k].Call?
  {
    var first := Call(Api.Request(Api.GET, Api.WalletsPath(keyringId), None));
    if scoped.Success? && scoped.value != [] then (scoped.value, [first])
    else
      var second := Call(Api.Request(Api.GET, Api.WalletsPath(""), None));
      ((if userScoped.Success? then userScoped.value else []), [first, second])
  }

  /** Prices and changes for the wallets' ids plus the defaults, and the
      total they give. */
  function Reprice(wallets: seq<WalletItem>, currency: string, response: Price.ProviderResponse)
    : (out: (Price.Quotes, real, seq<Effect>))
    ensures out.1 == Total(wallets, out.0.prices)
    ensures out.0 == Price.FetchPricesAndChange(PriceIds(wallets), currency, map[], response).1
    ensures forall k :: 0 <= k < |out.2| ==> out.2[k].AskPrices?
  {
    var (req, quotes) := Price.FetchPricesAndChange(PriceIds(wallets), currency, map[], response);
    (quotes, Total(wallets, quotes.prices), if req.Some? then [AskPrices(req.value)] else [])
  }

  /** The provider is always asked: the default ids never vanish. */
  lemma RepriceAlwaysAsks(wallets: seq<WalletItem>, currency: string, response: Price.ProviderResponse)
    ensures Price.FetchPricesAndChange(PriceIds(wallets), currency, map[], response).0.Some?
  {
    var ids := PriceIds(wallets);
    var idMap := Price.IdMap(map[]);
    assert "bitcoin" in ids;
    assert Price.ProviderId(idMap, "bitcoin") == "bitcoin";
    var i :| 0 <= i < |ids| && ids[i] == "bitcoin";
    assert "bitcoin" in Price.ProviderIds(idMap, ids);
  }

  // ---- setBaseCurrency / setActiveKeyring --------------------------------------

  /** The answers `setActiveKeyring` awaits. */
  datatype SelectAnswers = SelectAnswers(
    scopedWallets: Result<seq<WalletItem>, string>,
    userWallets: Result<seq<WalletItem>, string>,
    prices: Price.ProviderResponse)

  /** `setBaseCurrency(cur)`: the code is stored as given (not upper-cased),
      persisted, and prices, changes and total are recomputed for it; the
      wallets, keyrings and transactions are untouched. */
  function SetBaseCurrency(s: State, cur: string, prices: Price.ProviderResponse)
    : (out: (State, seq<Effect>))
    ensures var q := Price.FetchPricesAndChange(PriceIds(s.wallets), cur, map[], prices).1;
      out.0 == s.(baseCurrency := cur, prices := q.prices, changes24h := q.changes, total := out.0.total)
    ensures TotalConsistent(out.0)
    ensures |out.1| >= 1 && out.1[0] == Call(Api.UpdatePreferencesRequest(Api.JObj([("preferredCurrency", Api.JStr(cur))])))
  {
    var (quotes, total, asks) := Reprice(s.wallets, cur, prices);
    (s.(baseCurrency := cur, prices := quotes.prices, changes24h := quotes.changes, total := total),
     [Call(Api.UpdatePreferencesRequest(Api.JObj([("preferredCurrency", Api.JStr(cur))])))] + asks)
  }

  /** `setActiveKeyring(id)`: the id becomes active and is persisted, the
      wallets are reloaded and repriced at the current currency, and a
      transactions reload is started without being awaited. */
  function SetActiveKeyring(s: State, id: string, answers: SelectAnswers)
    : (out: (State, seq<Effect>))
    ensures out.0.activeKeyringId == id
    ensures out.0.wallets == LoadWallets(id, answers.scopedWallets, answers.userWallets).0
    ensures var q := Price.FetchPricesAndChange(PriceIds(out.0.wallets), s.baseCurrency, map[], answers.prices).1;
      out.0.prices == q.prices && out.0.changes24h == q.changes
    ensures TotalConsistent(out.0)
    ensures out.0 == s.(activeKeyringId := id, wallets := out.0.wallets, prices := out.0.prices,
                        changes24h := out.0.changes24h, total := out.0.total)
    ensures |out.1| >= 2 && out.1[0] == Call(Api.UpdatePreferencesRequest(Api.JObj([("activeKeyringId", Api.JStr(id))])))
    ensures out.1[|out.1| - 1] == LoadTransactions(false)
    ensures LoadTransactions(true) !in out.1
  {
    var persist := Call(Api.UpdatePreferencesRequest(Api.JObj([("activeKeyringId", Api.JStr(id))])));
    var (wallets, walletCalls) := LoadWallets(id, answers.scopedWallets, answers.userWallets);
    var (quotes, total, asks) := Reprice(wallets, s.baseCurrency, answers.prices);
    (s.(activeKeyringId := id, wallets := wallets, prices := quotes.prices, changes24h := quotes.changes, total := total),
     [persist] + walletCalls + asks + [LoadTransactions(false)])
  }

  // ---- bootstrap -------------------------------------------------------------

  /** The preferences record; `activeKeyringId` is None when the field is
      absent and Some("") when it is null or empty. */
  datatype Prefs = Prefs(preferredCurrency: string, activeKeyringId: Option<string>)

  /** Everything `bootstrap` reads: its options, the stored seen map (None
      when absent or not an object), and the answers it awaits. */
  datatype BootstrapInputs = BootstrapInputs(
    skipPreferences: bool,
    deferTransactions: bool,
    storedSeen: Option<map<string, bool>>,
    prefs: Result<Prefs, string>,
    keyrings: Result<seq<KeyringItem>, string>,
    select: SelectAnswers,
    scopedWallets: Result<seq<WalletItem>, string>,
    userWallets: Result<seq<WalletItem>, string>,
    prices: Price.ProviderResponse)

  /** Base currency and active id after the preferences step. */
  function ApplyPrefs(s: State, skip: bool, prefs: Result<Prefs, string>): (r: State)
    ensures skip ==> r == s
    ensures !skip && prefs.Failure? ==> r == s.(baseCurrency := "USD")
    ensures !skip && prefs.Success? && prefs.value.preferredCurrency != ""
      ==> r.baseCurrency == Upper(prefs.value.preferredCurrency)
    ensures !skip && prefs.Success? && prefs.value.activeKeyringId.Some?
      ==> r.activeKeyringId == prefs.value.activeKeyringId.value
    ensures r == s.(baseCurrency := r.baseCurrency, activeKeyringId := r.activeKeyringId)
  {
    if skip then s
    else
      var p := if prefs.Success? then prefs.value else Prefs("USD", None);
      var s1 := if p.preferredCurrency != "" then s.(baseCurrency := Upper(p.preferredCurrency)) else s;
      if p.activeKeyringId.Some? then s1.(activeKeyringId := p.activeKeyringId.value) else s1
  }

  function KeyringsOf(list: Result<seq<KeyringItem>, string>): seq<KeyringItem> {
    if list.Success? then list.value else []
  }

  /** Bootstrap up to the gate: seen map, preferences, keyrings, and the
      selection of the first keyring when none is active. The active id
      afterwards is the one every later step reads. */
  function BootstrapSelect(s: State, inp: BootstrapInputs): (out: (State, seq<Effect>))
    ensures out.0.keyrings == KeyringsOf(inp.keyrings)
    ensures out.0.loading
    ensures out.0.seenById == inp.storedSeen.GetOr(s.seenById)
    ensures out.0.baseCurrency == ApplyPrefs(s, inp.skipPreferences, inp.prefs).baseCurrency
    ensures |out.1| >= 1 && out.1[0] == Call(Api.RegisterRequest())
    ensures LoadTransactions(true) !in out.1
    ensures var pre := ApplyPrefs(s, inp.skipPreferences, inp.prefs).activeKeyringId;
      && (pre != "" ==> out.0.activeKeyringId == pre && LoadTransactions(false) !in out.1)
      && (pre == "" && KeyringsOf(inp.keyrings) == [] ==> out.0.activeKeyringId == "" && LoadTransactions(false) !in out.1)
      && (pre == "" && KeyringsOf(inp.keyrings) != [] ==>
            out.0.activeKeyringId == KeyringsOf(inp.keyrings)[0].id && LoadTransactions(false) in out.1)
  {
    var s0 := s.(loading := true, seenById := inp.storedSeen.GetOr(s.seenById));
    var s1 := ApplyPrefs(s0, inp.skipPreferences, inp.prefs);
    assert s1.activeKeyringId == ApplyPrefs(s, inp.skipPreferences, inp.prefs).activeKeyringId;
    assert s1.baseCurrency == ApplyPrefs(s, inp.skipPreferences, inp.prefs).baseCurrency;
    var prefCalls := if inp.skipPreferences then [] else [Call(Api.PreferencesRequest())];
    var keyrings := KeyringsOf(inp.keyrings);
    var s2 := s1.(keyrings := keyrings);
    var pre := [Call(Api.RegisterRequest())] + prefCalls + [Call(Api.ListKeyringsRequest())];
    assert LoadTransactions(false) !in pre && LoadTransactions(true) !in pre;
    if s2.activeKeyringId == "" && |keyrings| > 0 then
      var (t, e) := SetActiveKeyring(s2, keyrings[0].id, inp.select);
      assert (pre + e)[|pre + e| - 1] == e[|e| - 1];
      (t, pre + e)
    else (s2, pre)
  }

  /** `bootstrap(opts)`: at the gate (no active keyring) wallets, prices and
      total are cleared and nothing more is loaded; otherwise the active
      keyring's wallets are loaded and priced and a transactions load is
      scheduled (deferred unless `deferTransactions` is false). */
  function Bootstrap(s: State, inp: BootstrapInputs): (out: (State, seq<Effect>))
    ensures out.0.keyrings == KeyringsOf(inp.keyrings)
    ensures !out.0.loading
    ensures TotalConsistent(out.0)
    ensures out.0.seenById == inp.storedSeen.GetOr(s.seenById)
    ensures out.0.baseCurrency == ApplyPrefs(s, inp.skipPreferences, inp.prefs).baseCurrency
    ensures |out.1| >= 1 && out.1[0] == Call(Api.RegisterRequest())
    ensures out.0.activeKeyringId == "" ==>
      out.0.wallets == [] && out.0.prices == map[] && out.0.changes24h == map[] && out.0.total == 0.0
      && LoadTransactions(true) !in out.1
    ensures out.0.activeKeyringId != "" ==>
      out.0.wallets == LoadWallets(out.0.activeKeyringId, inp.scopedWallets, inp.userWallets).0
      && out.1[|out.1| - 1] == LoadTransactions(inp.deferTransactions)
    ensures out.0.activeKeyringId != "" ==>
      var q := Price.FetchPricesAndChange(PriceIds(out.0.wallets), out.0.baseCurrency, map[], inp.prices).1;
      out.0.prices == q.prices && out.0.changes24h == q.changes
  {
    var (s3, pre) := BootstrapSelect(s, inp);
    var active := s3.activeKeyringId;
    if active == "" then
      (s3.(wallets := [], prices := map[], changes24h := map[], total := 0.0, loading := false), pre)
    else
      var (wallets, walletCalls) := LoadWallets(active, inp.scopedWallets, inp.userWallets);
      var (quotes, total, asks) := Reprice(wallets, s3.baseCurrency, inp.prices);
      (s3.(wallets := wallets, prices := quotes.prices, changes24h := quotes.changes, total := total, loading := false),
       pre + walletCalls + asks + [LoadTransactions(inp.deferTransactions)])
  }

  /** With no active keyring and no keyring to pick, bootstrap stops at the
      onboarding gate: empty wallets and prices, a zero total, and no
      transactions load. */
  lemma BootstrapGate(s: State, inp: BootstrapInputs)
    requires ApplyPrefs(s, inp.skipPreferences, inp.prefs).activeKeyringId == ""
    requires KeyringsOf(inp.keyrings) == []
    ensures var (r, effects) := Bootstrap(s, inp);
      && r.activeKeyringId == ""
      && r.wallets == [] && r.prices == map[] && r.changes24h == map[] && r.total == 0.0
      && !r.loading
      && LoadTransactions(false) !in effects && LoadTransactions(true) !in effects
  {
  }

  /** With no active keyring but a non-empty list, the first keyring is
      selected through `setActiveKeyring` and then stays active. */
  lemma BootstrapPicksFirstKeyring(s: State, inp: BootstrapInputs)
    requires ApplyPrefs(s, inp.skipPreferences, inp.prefs).activeKeyringId == ""
    requires KeyringsOf(inp.keyrings) != [] && KeyringsOf(inp.keyrings)[0].id != ""
    ensures Bootstrap(s, inp).0.activeKeyringId == KeyringsOf(inp.keyrings)[0].id
    ensures LoadTransactions(false) in Bootstrap(s, inp).1
    ensures Bootstrap(s, inp).1[|Bootstrap(s, inp).1| - 1] == LoadTransactions(inp.deferTransactions)
  {
  }

  // ---- keyring management ------------------------------------------------------

  /** What an action returns to its caller: the value or the error text. */
  datatype Outcome<T> = Outcome(state: State, effects: seq<Effect>, result: Result<T, string>)

  /** A reloaded list whose last entry can be selected. */
  predicate HasLastToSelect(list: Result<seq<KeyringItem>, string>) {
    list.Success? && list.value != [] && list.value[|list.value| - 1].id != ""
  }

  /** After create/import: reload the list and select its last entry. */
  function ReloadAndSelectLast(s: State, list: Result<seq<KeyringItem>, string>, select: SelectAnswers)
    : (out: (State, seq<Effect>))
    ensures out.0.keyrings == KeyringsOf(list)
    ensures HasLastToSelect(list) ==> out.0.activeKeyringId == list.value[|list.value| - 1].id
    ensures !HasLastToSelect(list) ==> out.0 == s.(keyrings := KeyringsOf(list))
    ensures TotalConsistent(s) ==> TotalConsistent(out.0)
  {
    var latest := KeyringsOf(list);
    var s1 := s.(keyrings := latest);
    var listCall := Call(Api.ListKeyringsRequest());
    if HasLastToSelect(list) then
      assert latest == list.value;
      var id := list.value[|list.value| - 1].id;
      var picked := SetActiveKeyring(s1, id, select);
      assert picked.0.activeKeyringId == id;
      (picked.0, [listCall] + picked.1)
    else
      assert s1.wallets == s.wallets && s1.prices == s.prices && s1.total == s.total;
      (s1, [listCall])
  }

  /** `createKeyring(label)`: a failed create throws "Failed to create
      wallet" and changes nothing; otherwise the list is reloaded and its
      last keyring selected. */
  function CreateKeyring(s: State, name: string, created: Result<(), string>,
                         list: Result<seq<KeyringItem>, string>, select: SelectAnswers)
    : (out: Outcome<()>)
    ensures created.Failure? <==> out.result.Failure?
    ensures created.Failure? ==> out.state == s && out.result.error == "Failed to create wallet"
    ensures created.Success? ==> out.state == ReloadAndSelectLast(s, list, select).0
    ensures |out.effects| >= 1 && out.effects[0] == Call(Api.CreateKeyringRequest(name))
  {
    var call := Call(Api.CreateKeyringRequest(name));
    if created.Failure? then Outcome(s, [call], Failure("Failed to create wallet"))
    else
      var (s1, e) := ReloadAndSelectLast(s, list, select);
      Outcome(s1, [call] + e, Success(()))
  }

  /** `importKeyring(label, mnemonic)`: as create, with "Failed to import wallet". */
  function ImportKeyring(s: State, name: string, mnemonic: string, imported: Result<(), string>,
                         list: Result<seq<KeyringItem>, string>, select: SelectAnswers)
    : (out: Outcome<()>)
    ensures imported.Failure? <==> out.result.Failure?
    ensures imported.Failure? ==> out.state == s && out.result.error == "Failed to import wallet"
    ensures imported.Success? ==> out.state == ReloadAndSelectLast(s, list, select).0
    ensures |out.effects| >= 1 && out.effects[0] == Call(Api.ImportKeyringRequest(name, mnemonic))
  {
    var call := Call(Api.ImportKeyringRequest(name, mnemonic));
    if imported.Failure? then Outcome(s, [call], Failure("Failed to import wallet"))
    else
      var (s1, e) := ReloadAndSelectLast(s, list, select);
      Outcome(s1, [call] + e, Success(()))
  }

  /** `renameKeyring(id, label)`: only the keyring list can change. */
  function RenameKeyring(s: State, id: string, name: string, renamed: Result<(), string>,
                         list: Result<seq<KeyringItem>, string>)
    : (out: Outcome<()>)
    ensures out.state == s.(keyrings := out.state.keyrings)
    ensures renamed.Failure? <==> out.result.Failure?
    ensures renamed.Failure? ==> out.state == s && out.result.error == "Failed to rename wallet"
    ensures renamed.Success? ==> out.state.keyrings == (if list.Success? then list.value else [])
    ensures |out.effects| >= 1 && out.effects[0] == Call(Api.RenameKeyringRequest(id, name))
  {
    var call := Call(Api.RenameKeyringRequest(id, name));
    if renamed.Failure? then Outcome(s, [call], Failure("Failed to rename wallet"))
    else
      Outcome(s.(keyrings := if list.Success? then list.value else []),
              [call, Call(Api.ListKeyringsRequest())], Success(()))
  }

  /** `exportKeyring(id, passcode)`: the mnemonic, or the request's error
      text ("Failed to export" when that is empty); the state never changes. */
  function ExportKeyring(s: State, id: string, passcode: string, answer: Result<string, string>)
    : (out: Outcome<string>)
    ensures out.state == s
    ensures answer.Success? ==> out.result == answer
    ensures answer.Failure? ==>
      out.result.Failure? && out.result.error != ""
      && (answer.error != "" ==> out.result.error == answer.error)
      && (answer.error == "" ==> out.result.error == "Failed to export")
    ensures out.effects == [Call(Api.ExportKeyringRequest(id, passcode))]
  {
    var call := Call(Api.ExportKeyringRequest(id, passcode));
    match answer
    case Success(m) => Outcome(s, [call], Success(m))
    case Failure(e) => Outcome(s, [call], Failure(Or(e, "Failed to export")))
  }

  // ---- transactions --------------------------------------------------------------

  /** `loadTransactions()`: on success the normalised records newest first,
      with their seen flags and the unseen count; on failure an empty list
      with the unseen count left as it was. */
  function LoadTxs(s: State, answer: Result<seq<RawTx>, string>, now: real, randomId: nat -> string)
    : (out: (State, seq<Effect>))
    ensures out.0 == s.(transactions := out.0.transactions, transactionsLoading := false, unseenCount := out.0.unseenCount)
    ensures answer.Failure? ==> out.0.transactions == [] && out.0.unseenCount == s.unseenCount
    ensures answer.Success? ==>
      && NewestFirst(out.0.transactions)
      && |out.0.transactions| == |answer.value|
      && out.0.unseenCount == CountUnseen(out.0.transactions)
      && (forall i :: 0 <= i < |out.0.transactions| ==>
            out.0.transactions[i].seen == IsSeen(s.seenById, out.0.transactions[i].id))
    ensures out.1 == [Call(Api.Request(Api.GET, Api.TransactionsPath("", "", s.activeKeyringId), None))]
  {
    var call := Call(Api.Request(Api.GET, Api.TransactionsPath("", "", s.activeKeyringId), None));
    match answer
    case Failure(_) => (s.(transactions := [], transactionsLoading := false), [call])
    case Success(raws) =>
      var sorted := SortNewestFirst(NormalizeAll(raws, now, randomId));
      var withSeen := WithSeen(sorted, s.seenById);
      WithSeenKeepsOrder(sorted, s.seenById);
      (s.(transactions := withSeen, transactionsLoading := false, unseenCount := CountUnseen(withSeen)), [call])
  }

  /** The loaded list holds exactly the normalised records, reordered. */
  lemma LoadTxsIsPermutation(s: State, raws: seq<RawTx>, now: real, randomId: nat -> string)
    ensures var txs := LoadTxs(s, Success(raws), now, randomId).0.transactions;
      multiset(txs) == multiset(WithSeen(NormalizeAll(raws, now, randomId), s.seenById))
  {
    var norm := NormalizeAll(raws, now, randomId);
    var sorted := SortNewestFirst(norm);
    WithSeenPermutes(norm, sorted, s.seenById);
  }

  /** Setting flags from a map commutes with reordering. */
  lemma {:induction false} WithSeenPermutes(a: seq<Transaction>, b: seq<Transaction>, m: map<string, bool>)
    requires multiset(a) == multiset(b)
    ensures multiset(WithSeen(a, m)) == multiset(WithSeen(b, m))
    decreases |a|
  {
    if |a| == 0 {
      assert b == [];
    } else {
      var x := a[|a| - 1];
      assert x in multiset(b);
      var j :| 0 <= j < |b| && b[j] == x;
      var a' := a[..|a| - 1];
      var b1, b2 := b[..j], b[j + 1..];
      assert a == a' + [x];
      assert b == b1 + [x] + b2;
      MultisetCancel(a', b1, b2, x);
      WithSeenPermutes(a', b1 + b2, m);
      WithSeenConcat(a', [x], m);
      WithSeenLifted(b1, x, b2, m);
    }
  }

  /** Flags of a list with one record lifted out are the flags of the rest
      plus that record's. */
  lemma WithSeenLifted(b1: seq<Transaction>, x: Transaction, b2: seq<Transaction>, m: map<string, bool>)
    ensures multiset(WithSeen(b1 + [x] + b2, m)) == multiset(WithSeen(b1 + b2, m)) + multiset(WithSeen([x], m))
  {
    WithSeenConcat(b1, [x], m);
    WithSeenConcat(b1 + [x], b2, m);
    WithSeenConcat(b1, b2, m);
    var fx, f1, f2 := WithSeen([x], m), WithSeen(b1, m), WithSeen(b2, m);
    assert WithSeen(b1 + [x] + b2, m) == f1 + fx + f2;
    assert multiset(f1 + fx + f2) == multiset(f1) + multiset(fx) + multiset(f2);
  }

  lemma WithSeenConcat(p: seq<Transaction>, q: seq<Transaction>, m: map<string, bool>)
    ensures WithSeen(p + q, m) == WithSeen(p, m) + WithSeen(q, m)
  {
  }

  /** `markAllTransactionsSeen()`: every record seen, ids added to the seen
      map, count zero; everything else unchanged, and the map persisted. */
  function MarkAllTransactionsSeen(s: State): (out: (State, seq<Effect>))
    ensures out.0 == s.(seenById := out.0.seenById, transactions := out.0.transactions, unseenCount := 0)
    ensures |out.0.transactions| == |s.transactions|
    ensures forall i :: 0 <= i < |s.transactions| ==> out.0.transactions[i] == s.transactions[i].(seen := true)
    ensures forall i :: 0 <= i < |s.transactions| ==> IsSeen(out.0.seenById, s.transactions[i].id)
    ensures forall k :: k in s.seenById && k !in TxIds(s.transactions) ==> k in out.0.seenById && out.0.seenById[k] == s.seenById[k]
    ensures out.1 == [PersistSeen(out.0.seenById)]
  {
    var (m, txs) := MarkAllSeen(s.transactions, s.seenById);
    (s.(seenById := m, transactions := txs, unseenCount := 0), [PersistSeen(m)])
  }

  /** A second mark-all changes nothing. */
  lemma MarkAllTransactionsSeenIdempotent(s: State)
    ensures var s1 := MarkAllTransactionsSeen(s).0;
      MarkAllTransactionsSeen(s1).0 == s1
  {
    MarkAllSeenIdempotent(s.transactions, s.seenById);
  }

  // ---- sending -------------------------------------------------------------------

  datatype TransferReceipt = TransferReceipt(txid: string, from: string)

  /** The transfer payload: the caller's fields plus the active keyring id
      when one is active. */
  function TransferPayload(s: State, chain: string, toAddress: string, amount: string, passcode: Option<string>)
    : (r: Api.Request)
    ensures r.verb == Api.POST && r.body.Some? && r.body.value.JObj?
    ensures var f := r.body.value.fields;
      && 3 <= |f| <= 5
      && f[..3] == [("chain", Api.JStr(chain)), ("toAddress", Api.JStr(toAddress)), ("amount", Api.JStr(amount))]
      && (s.activeKeyringId != "" ==> f[|f| - 1] == ("keyringId", Api.JStr(s.activeKeyringId)))
      && (s.activeKeyringId == "" ==> forall i :: 0 <= i < |f| ==> f[i].0 != "keyringId")
      && |f| == 3 + (if passcode.Some? then 1 else 0) + (if s.activeKeyringId != "" then 1 else 0)
      && (passcode.Some? ==> f[3] == ("passcode", Api.JStr(passcode.value)))
      && (passcode.None? ==> forall i :: 0 <= i < |f| ==> f[i].0 != "passcode")
  {
    var kid := if s.activeKeyringId != "" then Some(s.activeKeyringId) else None;
    var last := [("keyringId", Api.StrField(kid))];
    assert Api.OptFields(last) == (if kid.Some? then [("keyringId", Api.JStr(kid.value))] else []);
    assert Api.OptFields([("passcode", Api.StrField(passcode)), ("keyringId", Api.StrField(kid))])
      == (if passcode.Some? then [("passcode", Api.JStr(passcode.value))] else []) + Api.OptFields(last);
    Api.TransferRequest(chain, toAddress, amount, passcode, kid)
  }

  /** `sendTransfer(args)`: a failure carries the request's error text (or
      "Failed to send") and skips the refresh; success awaits a transactions
      reload and returns the receipt. */
  function SendTransfer(s: State, chain: string, toAddress: string, amount: string, passcode: Option<string>,
                        answer: Result<TransferReceipt, string>,
                        reload: Result<seq<RawTx>, string>, now: real, randomId: nat -> string)
    : (out: Outcome<TransferReceipt>)
    ensures |out.effects| >= 1 && out.effects[0] == Call(TransferPayload(s, chain, toAddress, amount, passcode))
    ensures answer.Failure? ==>
      out.state == s && out.result.Failure? && out.result.error != ""
      && (answer.error != "" ==> out.result.error == answer.error)
      && (answer.error == "" ==> out.result.error == "Failed to send")
    ensures answer.Success? ==> out.result == answer && out.state == LoadTxs(s, reload, now, randomId).0
  {
    var call := Call(TransferPayload(s, chain, toAddress, amount, passcode));
    match answer
    case Failure(e) => Outcome(s, [call], Failure(Or(e, "Failed to send")))
    case Success(receipt) =>
      var (s1, e) := LoadTxs(s, reload, now, randomId);
      Outcome(s1, [call] + e, Success(receipt))
  }

  // ---- live balance updates ------------------------------------------------------

  predicate Matches(w: WalletItem, chain: string, address: string) {
    w.chain == chain && w.address == address
  }

  /** Index of the first wallet for this chain and address, or |wallets|. */
  function FirstMatch(wallets: seq<WalletItem>, chain: string, address: string): (k: nat)
    ensures k <= |wallets|
    ensures forall i :: 0 <= i < k ==> !Matches(wallets[i], chain, address)
    ensures k < |wallets| ==> Matches(wallets[k], chain, address)
  {
    if |wallets| == 0 then 0
    else if Matches(wallets[0], chain, address) then 0
    else 1 + FirstMatch(wallets[1..], chain, address)
  }

  /** The `balance_update` handler: ignored unless some wallet has this chain
      and address and the first such wallet's balance differs; then every
      matching wallet takes the new balance and the total is recomputed at
      the prices already held. */
  function BalanceUpdate(s: State, chain: string, address: string, balance: real): (r: State)
    ensures FirstMatch(s.wallets, chain, address) == |s.wallets| ==> r == s
    ensures var k := FirstMatch(s.wallets, chain, address);
      k < |s.wallets| && s.wallets[k].balance == balance ==> r == s
    ensures r == s || (r == s.(wallets := r.wallets, total := r.total) && r.total == Total(r.wallets, s.prices))
    ensures |r.wallets| == |s.wallets|
    ensures r != s ==> forall i :: 0 <= i < |s.wallets| ==>
      r.wallets[i] == (if Matches(s.wallets[i], chain, address) then s.wallets[i].(balance := balance) else s.wallets[i])
  {
    var k := FirstMatch(s.wallets, chain, address);
    if k == |s.wallets| || s.wallets[k].balance == balance then s
    else
      var wallets := seq(|s.wallets|, i requires 0 <= i < |s.wallets| =>
        if Matches(s.wallets[i], chain, address) then s.wallets[i].(balance := balance) else s.wallets[i]);
      s.(wallets := wallets, total := Total(wallets, s.prices))
  }

  /** A balance update keeps the displayed total consistent. */
  lemma BalanceUpdateConsistent(s: State, chain: string, address: string, balance: real)
    requires TotalConsistent(s)
    ensures TotalConsistent(BalanceUpdate(s, chain, address, balance))
  {
  }

  /** Replaying the same update is a no-op. */
  lemma BalanceUpdateIdempotent(s: State, chain: string, address: string, balance: real)
    ensures var r := BalanceUpdate(s, chain, address, balance);
      BalanceUpdate(r, chain, address, balance) == r
  {
    var r := BalanceUpdate(s, chain, address, balance);
    var k := FirstMatch(s.wallets, chain, address);
    if r != s {
      var k' := FirstMatch(r.wallets, chain, address);
      assert forall i :: 0 <= i < |s.wallets| ==> (Matches(r.wallets[i], chain, address) <==> Matches(s.wallets[i], chain, address));
      assert k' == k by {
        FirstMatchSame(s.wallets, r.wallets, chain, address);
      }
    }
  }

  /** The first match only depends on which positions match. */
  lemma {:induction false} FirstMatchSame(a: seq<WalletItem>, b: seq<WalletItem>, chain: string, address: string)
    requires |a| == |b|
    requires forall i :: 0 <= i < |a| ==> (Matches(a[i], chain, address) <==> Matches(b[i], chain, address))
    ensures FirstMatch(a, chain, address) == FirstMatch(b, chain, address)
    decreases |a|
  {
    if |a| > 0 && !Matches(a[0], chain, address) {
      FirstMatchSame(a[1..], b[1..], chain, address);
    }
  }

  // ---- socket --------------------------------------------------------------------

  /** `subscribeSocket()`: a second subscription while one is open does nothing. */
  function SubscribeSocket(s: State): (r: State)
    ensures s.socketOpen ==> r == s
    ensures !s.socketOpen ==> r == s.(socketOpen := true, socketConnected := true)
  {
    if s.socketOpen then s else s.(socketOpen := true, socketConnected := true)
  }

  /** `unsubscribeSocket()`: always ends disconnected. */
  function UnsubscribeSocket(s: State): (r: State)
    ensures r == s.(socketOpen := false, socketConnected := false)
  {
    s.(socketOpen := false, socketConnected := false)
  }

  /** Subscribing twice is subscribing once, and unsubscribing undoes a
      subscription whatever came before. */
  lemma SocketLifecycle(s: State)
    ensures SubscribeSocket(SubscribeSocket(s)) == SubscribeSocket(s)
    ensures UnsubscribeSocket(SubscribeSocket(s)) == UnsubscribeSocket(s)
  {
  }
}
