# zenx wallet front-end: a Dafny model of its core logic

This project models the deterministic core of the zenx wallet front-end. That front-end is a React wallet UI backed by a Zustand store. The model covers:

- **the wallet store** (`WalletStore`, `StoreTables`, `StoreTransactions`). The store's state is an immutable record; each action (bootstrap, wallet and price loads, currency and keyring switches, transaction loading, mark-all-seen, the socket's `balance_update`) is a pure transition from a state and the answers of the API calls it makes to a new state and the effects it asks for.
- **the helpers**:
  - price assembly (`Price`);
  - API paths, query strings, request bodies and error messages (`Api`, `UriEncoding`);
  - chain and symbol tables (`Chain`);
  - asset labels, in both copies of the file (`Labels`, `LegacyLabels`);
  - minimum send amounts (`MinSend`);
  - the fiat tables, in both copies of the file (`Fiats`).
- **the validators and small state machines inside the UI**:
  - the PIN boxes (`PinInput`);
  - the send form (`SendAssetSheet`);
  - the passcode page and prompt (`PasscodePage`, `PasscodePromptModal`);
  - the backup e-mail page (`BackupEmailPage`);
  - the settings page (`SettingsPage`);
  - the recovery-phrase modal (`SeedPhraseModal`).
- **the display derivations**:
  - the recent-transactions card (`TransactionHistory`);
  - the history page (`HistoryPage`);
  - the payment details page (`TransactionDetailsPage`);
  - the home page's asset merge (`IndexPage`);
  - the asset grid (`AssetList`).

Network calls, the clock and random identifiers are parameters:

- an API answer is a `Result` (success value or failure message);
- the current time is a `real` number of milliseconds.

Each fire-and-forget call (localStorage writes, deferred transaction loads, socket subscriptions) is returned as an effect value and is not carried out.

Several JavaScript semantics are written out explicitly:

- string `||`;
- `slice` with negative bounds;
- `split` on one character and on whitespace runs;
- `trim`;
- the leftmost match of `replace(/\.?0+$/, "")`;
- `Map.set` overwriting;
- `Number(...)` coercion with NaN and Infinity;
- `encodeURIComponent` and `URLSearchParams` form encoding.

Text is `seq<char>`, one element per Unicode code point, while JavaScript's `length`, `slice` and indexing count UTF-16 code units. The two agree on text without characters outside the Basic Multilingual Plane (emoji and the like); "## Left out" names the members where they part. Amounts are `real`.

Two details of the store's currency handling:

- `bootstrap` falls back to `USD` when the preferences call fails (src/stores/wallet.ts:546-551).
- `setBaseCurrency` stores the code exactly as given, while `bootstrap` upper-cases the preferred code.

## Model

| member | source | states |
|---|---|---|
| Chain.SymbolToChain | src/helpers/chain.ts:8-17 | each backend chain is chosen exactly for its upper-cased ticker; ETH and every unknown ticker give ethereum |
| Chain.ChainToSymbol | src/helpers/chain.ts:19-25 | every one of the five chains has a ticker, and that ticker is an upper-case known symbol |
| Chain.SymbolToChainCaseInsensitive | src/helpers/chain.ts:9 | the chain of a ticker does not depend on its letter case |
| Chain.ChainRoundTrip | src/helpers/chain.ts:8-25 | chain → ticker → chain gives back the chain, for all five chains |
| Chain.SymbolRoundTrip | src/helpers/chain.ts:8-25 | ticker → chain → ticker gives the upper-cased ticker for the five known ones and "ETH" for any other |
| Labels.TagIsUpper | src/helpers/labels.ts:20-27 | the network tag's spelled-out cases agree with upper-casing, so the tag is the upper-cased suffix for every input |
| Labels.GetAssetDisplayName | src/helpers/labels.ts:14-42 | "USDT" for the usdt id or symbol before the prefix rule; "USDT (<NETWORK>)" for other usdt- ids; the same two rules for USDC; "BNB" for bsc or BNB; otherwise the name unchanged |
| Labels.GetSymbolWithNetwork | src/helpers/labels.ts:44-50 | USDT, USDC and BNB in any case come out upper-cased; every other symbol is unchanged |
| Labels.SymbolWithNetworkIdempotent | src/helpers/labels.ts:44-50 | applying the symbol label twice equals applying it once |
| Labels.GetAssetNetworkLabel | src/helpers/labels.ts:55-62 | for ids starting usdt- or usdc- in any case, the upper-cased second segment; otherwise the upper-cased symbol; never lower-case letters |
| LegacyLabels.GetAssetDisplayName | helpers/labels.ts:14-19 | "USDT (TRC20)" exactly for the usdt id or a USDT symbol in any case, otherwise the name unchanged |
| LegacyLabels.GetSymbolWithNetwork | helpers/labels.ts:21-26 | "USDT (TRC20)" exactly for usdt in any case, otherwise the symbol unchanged |
| LegacyLabels.SymbolWithNetworkIdempotent | helpers/labels.ts:21-26 | the label is not itself a USDT symbol, so applying the function twice equals applying it once |
| MinSend.EnvOr | config/minSend.ts:4-8 | the variable's value exactly when it is a finite number above zero, the fallback otherwise; positive whenever the fallback is |
| MinSend.MinSendOf | config/minSend.ts:10-15 | all four table entries are positive whatever the environment holds |
| MinSend.GetMinSendForSymbol | config/minSend.ts:17-21 | BTC, ETH, TRX and USDT in any case give their table entry; the result is 0 exactly for the other symbols and never negative |
| MinSend.MinSendCaseInsensitive | config/minSend.ts:18 | the minimum does not depend on the symbol's letter case |
| Fiats.SymbolOrEmpty | src/components/TransactionHistory/TransactionHistory.tsx:41 | the currency's sign from the symbol table, never empty, for a listed code; the empty text for any other code |
| Fiats.IconRefNonEmpty | src/config/fiats.ts:29-52 | every icon the label table carries, in either copy, is a non-empty reference |
| Fiats.FiatMeta | src/config/fiats.ts:29-52 | the label table of either copy covers the same 22 codes, and a code has an icon exactly when it is one of the eight with an image |
| Fiats.CurrenciesCovered | src/config/fiats.ts:20-77 | every selectable currency has both a label and a sign |
| Fiats.MetaAndSymbolsAgree | src/config/fiats.ts:29-77 | the label table and the sign table describe exactly the same codes |
| Fiats.CurrenciesDistinct | src/config/fiats.ts:20-27 | the selectable currencies are listed without repetition |
| Fiats.GetFiatIconOrFallback | src/config/fiats.ts:79-87 | an icon exactly when the code's entry has one, and then that icon; otherwise initials: the upper-cased code's first two characters (fewer for a shorter code) |
| Fiats.InitialsOf | config/fiats.ts:73 | at most two characters, a prefix of the upper-cased code |
| Price.IdMap | src/helpers/price.ts:17-22 | the merged id table has the default and the custom keys, the custom entry winning where both exist |
| Price.MapIds | src/helpers/price.ts:73 | every id is replaced by its provider id, in place, or passes through without a non-empty mapping |
| Price.NonEmpty | src/helpers/price.ts:73 | exactly the non-empty ids are kept |
| Price.ProviderIds | src/helpers/price.ts:73 | the requested provider ids are distinct, and are exactly the non-empty provider ids of the input |
| Price.Vs | src/helpers/price.ts:76 | the currency is lower-cased, and a missing one reads "usd" |
| Price.Collect | src/helpers/price.ts:87-93 | an asset id is a key exactly when it is an input whose provider entry holds a number under the field, and its value is that number |
| Price.FetchPricesAndChange | src/helpers/price.ts:67-98 | no request and both maps empty when no provider id remains; both maps empty on any failure; otherwise the price and change maps hold exactly the inputs whose entry has the numeric field, with that value |
| Price.SharedProviderIdSameQuotes | src/helpers/price.ts:87-92 | two inputs with the same provider id get the same price and the same change, or are both absent |
| Price.FetchPrices | src/helpers/price.ts:24-59 | the same request rule, an empty map on failure, keys only among the inputs |
| Price.FetchPricesIsPriceHalf | src/helpers/price.ts:24-98 | the price-only lookup yields exactly the price map of the combined lookup, for every input and response |
| Api.OptFields | src/stores/wallet.ts:803-807 | the optional fields sent are exactly the given ones, each with its value: none when none is given, all of them in order when all are |
| Api.ApiGet | src/helpers/api.ts:52-62 | a GET of the path; success exactly on an ok answer, with its payload; on any other status the text "GET <path> <status>" whatever the body; a transport failure keeps its own message |
| Api.ApiPost | src/helpers/api.ts:64-92 | a POST of the path carrying a body exactly when the argument is truthy; on a failed status the server's message, else its error, else "POST <path> <status>", the last also for an unreadable body |
| Api.GetErrorIgnoresBody | src/helpers/api.ts:60 | two failed GETs with the same status fail alike, whatever their bodies hold |
| Api.WalletsPathQuery | src/helpers/api.ts:97-100 | without a keyring id the wallets path has no query; with one, the query is the single pair keyringId=<encoded id>, whatever characters the id holds |
| Api.TransactionsParams | src/helpers/api.ts:115-120 | one parameter per truthy field, none empty: address first, then chain, then keyringId, each carrying its own value |
| Api.TransactionsPathQuery | src/helpers/api.ts:108-123 | no query without a truthy field; otherwise the query splits back on "&" into exactly the encoded key=value pairs of the truthy fields |
| Api.ExportBodiesCarryPasscode | src/helpers/api.ts:137-176 | both export calls send the passcode field exactly for a truthy passcode and an empty object otherwise |
| Api.KeyringPathSegments | src/helpers/api.ts:167-176 | the keyring id, encoded, adds exactly one path segment to the keyrings path, and the export path one more, whatever characters the id holds |
| Api.XrpInfoPathQuery | src/helpers/api.ts:181-191 | the account-info path has a query exactly when an address is given, and then its one `address` parameter holds the whole encoded address |
| UriEncoding.EncodeUriComponent | src/helpers/api.ts:99 | every output character is unreserved, "%" or an upper-case hex digit, and a text of unreserved characters is left as it is |
| UriEncoding.FormEncode | src/helpers/api.ts:116-120 | every output character is unreserved in forms, "%", "+" or an upper-case hex digit |
| UriEncoding.EncodingsHaveNoDelimiters | src/helpers/api.ts:99-176 | neither encoding can produce "/", "?", "#", "&" or "=", so an encoded id or value never splits a path or a query |
| StoreTables.ChainToId | src/stores/wallet.ts:465-473 | the USDT chains in any letter case give "usdt", the USDC chains "usdc", and every other chain comes back unchanged, not lower-cased |
| StoreTables.ChainToIdIdempotent | src/stores/wallet.ts:465-473 | a price id is its own price id |
| StoreTables.MapChainToSymbol | src/stores/wallet.ts:488-511 | the fixed tickers for the known chains in any letter case, the upper-cased chain otherwise; never a lower-case letter |
| StoreTables.MapChainToSymbolCaseInsensitive | src/stores/wallet.ts:489 | the ticker does not depend on the chain's letter case |
| StoreTables.SymbolAgreesWithPriceId | src/stores/wallet.ts:465-511 | a chain priced as a stablecoin gets that stablecoin's ticker |
| StoreTables.PriceIds | src/stores/wallet.ts:593-596 | the priced ids are distinct, hold all eight defaults and every wallet's price id, and nothing else |
| StoreTables.TotalAppend | src/stores/wallet.ts:601-605 | the total of two wallet lists is the sum of their totals |
| StoreTables.TotalDependsOnWalletPrices | src/stores/wallet.ts:601-605 | the total changes only with the prices of ids the wallets actually have |
| StoreTables.TotalWithoutPrices | src/stores/wallet.ts:601-605 | without any price every wallet contributes 0, so the total is 0 |
| StoreTables.TotalNonNegative | src/stores/wallet.ts:601-605 | non-negative balances at non-negative prices never give a negative total |
| StoreTransactions.TimestampNumber | src/stores/wallet.ts:641-645 | a numeric timestamp is taken as it is; with neither timestamp nor creation time the clock is used |
| StoreTransactions.SecondsAndMillisAgree | src/stores/wallet.ts:646-650 | an instant from 10^9 seconds on normalises alike whether it arrives in seconds or in milliseconds |
| StoreTransactions.NormalizeMsRange | src/stores/wallet.ts:646-650 | finite inputs from 10^9 on all come out as at least 10^12 milliseconds, and a non-finite input becomes the clock |
| StoreTransactions.TxTypeOf | src/stores/wallet.ts:653-659 | never empty; the record's own type when present, else "receive" exactly for an incoming direction and "send" for every other |
| StoreTransactions.Normalize | src/stores/wallet.ts:651-668 | the id falls back to the alternative id then a random one; the asset is the ticker of the chain (bitcoin without one); the status is the record's own when set and "completed" otherwise; the hash falls back to the transaction id; the sender and recipient addresses fall back to `from` and `to`; the record starts unseen |
| StoreTransactions.NormalizeAll | src/stores/wallet.ts:639-670 | one normalised record per backend record, in the backend's order |
| StoreTransactions.SortNewestFirst | src/stores/wallet.ts:672-675 | the sorted list is a permutation of its input, newest first |
| StoreTransactions.WithSeenKeepsOrder | src/stores/wallet.ts:677-682 | merging the seen flags keeps a newest-first list newest first |
| StoreTransactions.CountUnseen | src/stores/wallet.ts:683-686 | the count never exceeds the list, and is 0 exactly when every record is seen |
| StoreTransactions.MarkAllSeen | src/stores/wallet.ts:865-876 | the map gains every loaded id as seen and keeps the other entries; the list keeps length, order and every field but the flag, which becomes seen; nothing is left unseen |
| StoreTransactions.MarkAllSeenIdempotent | src/stores/wallet.ts:865-876 | marking twice is marking once, for the map and the list |
| StoreTransactions.MarkedIdsKept | src/stores/wallet.ts:867-871 | marking keeps the set of ids, and every record is then seen in the list and in the map |
| StoreTransactions.ReloadAfterMarkAllSeen | src/stores/wallet.ts:677-686 | after marking, any reload of the same records merges to no unseen record |
| WalletStore.InitialConsistent | src/stores/wallet.ts:513-526 | the store starts with a total that matches its (empty) wallets and prices |
| WalletStore.LoadWallets | src/stores/wallet.ts:581-591 | the keyring's wallets when that call returns some; otherwise the user's wallets, or none when that call fails too; the user-wide call is made only in that case |
| WalletStore.Reprice | src/stores/wallet.ts:593-606 | the quotes are those of the price lookup for the wallets' ids and the defaults, and the total is the wallets' sum at those prices |
| WalletStore.RepriceAlwaysAsks | src/stores/wallet.ts:593-600 | the default ids never vanish, so the provider is always asked, even without wallets |
| WalletStore.SetBaseCurrency | src/stores/wallet.ts:698-716 | the code is kept as given and persisted first; prices, changes and total are recomputed for it and agree; nothing else changes |
| WalletStore.SetActiveKeyring | src/stores/wallet.ts:718-750 | the id becomes active and is persisted first; the wallets are reloaded, the prices and 24h changes are the lookup for their price ids in the current base currency, and the total matches; only those fields change; a transactions reload is started last and not deferred |
| WalletStore.ApplyPrefs | src/stores/wallet.ts:544-555 | skipped preferences change nothing; a failed read sets USD; a preferred currency is stored upper-cased; a present active id replaces the current one; nothing else changes |
| WalletStore.BootstrapSelect | src/stores/wallet.ts:528-570 | register comes first; the seen map is the stored one when readable; the base currency is the upper-cased preference, "USD" when the preferences call fails, unchanged when skipped; the keyring list is the loaded one; an active id from the preferences is kept, otherwise the first keyring is selected, which alone starts a transactions reload |
| WalletStore.Bootstrap | src/stores/wallet.ts:528-629 | always ends loaded with a matching total and the base currency the preferences give; without an active keyring wallets, prices and total are cleared and no deferred load is scheduled; with one, its wallets are loaded, the prices and 24h changes are the lookup for their price ids in that currency, and the last effect is the transactions load, deferred as asked |
| WalletStore.BootstrapGate | src/stores/wallet.ts:571-575 | no active id and no keyring: no wallets, no prices, a zero total, not loading, and no transactions load at all |
| WalletStore.BootstrapPicksFirstKeyring | src/stores/wallet.ts:563-578 | no active id but some keyrings: the first keyring ends up active and both the selection's reload and the final load are scheduled |
| WalletStore.ReloadAndSelectLast | src/stores/wallet.ts:756-764 | the list is replaced by the reloaded one; its last keyring is selected when it has an id, and otherwise nothing else changes; a matching total stays matching |
| WalletStore.CreateKeyring | src/stores/wallet.ts:752-765 | a failed create changes nothing and fails with "Failed to create wallet"; otherwise the list is reloaded and its last keyring selected |
| WalletStore.ImportKeyring | src/stores/wallet.ts:767-780 | a failed import changes nothing and fails with "Failed to import wallet"; otherwise as create |
| WalletStore.RenameKeyring | src/stores/wallet.ts:782-790 | only the keyring list can change; a failed rename changes nothing and fails with "Failed to rename wallet" |
| WalletStore.ExportKeyring | src/stores/wallet.ts:792-797 | the state never changes; the mnemonic on success; on failure the request's own text, or "Failed to export" when it has none |
| WalletStore.LoadTxs | src/stores/wallet.ts:631-696 | on success the records are newest first, one per backend record, each flagged from the seen map, with the matching unseen count; on failure the list is empty and the count untouched; nothing else changes |
| WalletStore.LoadTxsIsPermutation | src/stores/wallet.ts:639-682 | the loaded list holds exactly the normalised records with their flags, only reordered |
| WalletStore.WithSeenPermutes | src/stores/wallet.ts:677-682 | reading the flags from the map commutes with any reordering of the records |
| WalletStore.MarkAllTransactionsSeen | src/stores/wallet.ts:865-880 | every record is seen in the list and the map, other map entries are kept, the count is 0, the map is persisted, and nothing else changes |
| WalletStore.MarkAllTransactionsSeenIdempotent | src/stores/wallet.ts:865-880 | a second mark-all leaves the state as the first left it |
| WalletStore.TransferPayload | src/stores/wallet.ts:799-807 | the caller's chain, recipient and amount come first, then the passcode field exactly when the caller gives one, and the keyring id field last exactly when a keyring is active |
| WalletStore.SendTransfer | src/stores/wallet.ts:799-814 | the transfer is sent first; a failure changes nothing and carries the request's text, or "Failed to send"; a success reloads the transactions and returns the receipt |
| WalletStore.FirstMatch | src/stores/wallet.ts:832-834 | the position of the first wallet with that chain and address, or the length when there is none |
| WalletStore.BalanceUpdate | src/stores/wallet.ts:827-850 | ignored when no wallet matches or the first match already holds the balance; otherwise exactly the matching wallets take the balance, the total is recomputed at the held prices, and nothing else changes |
| WalletStore.BalanceUpdateConsistent | src/stores/wallet.ts:839-850 | a balance update keeps the displayed total matching the wallets and prices |
| WalletStore.BalanceUpdateIdempotent | src/stores/wallet.ts:827-850 | replaying the same update changes nothing |
| WalletStore.SubscribeSocket | src/stores/wallet.ts:816-854 | a second subscription while one is open changes nothing; otherwise the socket is open and connected |
| WalletStore.UnsubscribeSocket | src/stores/wallet.ts:856-863 | always ends closed and disconnected, whatever came before |
| WalletStore.SocketLifecycle | src/stores/wallet.ts:816-863 | subscribing twice is subscribing once, and unsubscribing after a subscription ends where unsubscribing alone would |
| PinInput.Boxes | src/components/PinInput/PinInput.tsx:25-28 | exactly `length` boxes of at most one character each, a box being empty exactly past the end of the value |
| PinInput.JoinBoxesRange | src/components/PinInput/PinInput.tsx:25-28 | any run of boxes joined is the matching piece of the value |
| PinInput.FullPinRoundTrip | src/components/PinInput/PinInput.tsx:25-28 | a PIN of at least `length` characters comes back, cut to `length`, from its boxes, and the cut PIN shows the same boxes |
| PinInput.SetDigitAt | src/components/PinInput/PinInput.tsx:36-42 | nothing is emitted exactly when the typed text has no digit; otherwise the first digit takes the place of the character at the box typed in, or is appended when the value does not reach that box, and the result is cut to `length` |
| PinInput.Clear | src/components/PinInput/PinInput.tsx:59-64 | clearing a box removes its character so that later ones move left; clearing past the end changes nothing |
| PinInput.PasteAtTail | src/components/PinInput/PinInput.tsx:48-54 | pasting at an empty box past the end appends the digits that fit |
| PinInput.PasteFillsAll | src/components/PinInput/PinInput.tsx:48-54 | pasting a whole code into the first box replaces the PIN by the code |
| PinInput.PasteKeepsPrefix | src/components/PinInput/PinInput.tsx:51-53 | the boxes before the paste position keep their characters |
| PinInput.Paste | src/components/PinInput/PinInput.tsx:46-58 | nothing is emitted and the focus stays exactly when the text has no digit; otherwise at most `length` characters, the boxes before the position kept, focus on the box after the digits (at most the last); a whole code pasted into the first box becomes the PIN |
| PinInput.HandleChange | src/components/PinInput/PinInput.tsx:44-70 | longer text pastes, empty text clears the box, one character types it, moving the focus on exactly when a box follows; never more than `length` characters |
| PinInput.KeyDown | src/components/PinInput/PinInput.tsx:72-92 | Backspace clears the box or, on an empty one, the box before and moves there; arrows move within the row; only those keys emit or prevent the default, and other keys do nothing |
| PinInput.TypeThenBackspace | src/components/PinInput/PinInput.tsx:44-92 | typing a digit at the first empty box and pressing Backspace in the box that then has focus gives back the value typed over |
| SendAssetSheet.ScanAmountIff | src/components/SendAssetSheet/SendAssetSheet.tsx:159 | the left-to-right reading of the amount pattern accepts exactly the texts of digits with at most one dot |
| SendAssetSheet.SplitAmount | src/components/SendAssetSheet/SendAssetSheet.tsx:166-167 | for a text of that shape, the split at the dot has a second piece longer than eight exactly when more than eight digits follow the dot |
| SendAssetSheet.HandleAmountChange | src/components/SendAssetSheet/SendAssetSheet.tsx:148-173 | the typed text is taken exactly when it is empty, or digits with at most one dot, not starting "00", with at most eight decimals; otherwise the field keeps its text, so typing never leaves other text there (Max writes the field without this filter) |
| SendAssetSheet.TrxBalance | src/components/SendAssetSheet/SendAssetSheet.tsx:51-59 | the balance of the first tron wallet, or 0 when there is none |
| SendAssetSheet.Validate | src/components/SendAssetSheet/SendAssetSheet.tsx:89-131 | each flag holds exactly under its condition: an address after trimming, a finite amount at least the minimum, a finite positive amount, an amount above the balance, a zero balance, a non-empty text that is not a positive finite number, TRC-20 USDT, TRX for its fees, XRP, an XRP amount above the spendable amount once known; the form is valid exactly when it has an address, meets the minimum, is within a non-zero balance, has TRX for fees and does not exceed the spendable XRP |
| SendAssetSheet.ZeroAmountAccepted | src/components/SendAssetSheet/SendAssetSheet.tsx:94-117 | as written, an amount of 0 for XRP (no minimum) makes the form valid while the same memo flags it as an invalid number |
| SendAssetSheet.IntendedValidate | src/components/SendAssetSheet/SendAssetSheet.tsx:99-117 | valid exactly when the form as written is valid and the amount is strictly positive; then the amount is positive, within the balance and at least the minimum; every other flag is as written |
| SendAssetSheet.CorrectionOnlyMattersWithoutMinimum | src/components/SendAssetSheet/SendAssetSheet.tsx:94-100 | where a positive minimum is configured the corrected and the written validation agree everywhere |
| SendAssetSheet.Round6 | src/components/SendAssetSheet/SendAssetSheet.tsx:136-137 | the number read back from a six-decimal rendering is within half a millionth of the amount |
| SendAssetSheet.MaxClick | src/components/SendAssetSheet/SendAssetSheet.tsx:133-146 | once the XRP account info is known, the six-decimal rendering of the spendable amount, filled exactly when that amount is above zero, and reading back as the amount rounded to six decimals; otherwise the balance's text, filled exactly when the balance is above zero, and reading back as the balance |
| SendAssetSheet.MaxFillPassesAmountChecks | src/components/SendAssetSheet/SendAssetSheet.tsx:89-146 | filled from the balance, Max never trips the amount, balance, zero-balance or XRP spendable checks |
| SendAssetSheet.MaxOverfillsSpendable | src/components/SendAssetSheet/SendAssetSheet.tsx:106-141 | as written, a spendable amount of 0.1234567 XRP fills in "0.123457", which exceeds the spendable amount and leaves the form invalid |
| SendAssetSheet.MaxFillsZero | src/components/SendAssetSheet/SendAssetSheet.tsx:99-141 | as written, a spendable amount of 0.0000004 XRP fills in "0", which the memo flags as an invalid number and still accepts |
| SendAssetSheet.Floor6 | src/components/SendAssetSheet/SendAssetSheet.tsx:136-137 | the six-decimal rounding down: at most the amount and less than a millionth below it |
| SendAssetSheet.IntendedMaxClick | src/components/SendAssetSheet/SendAssetSheet.tsx:133-146 | for XRP, fills exactly when at least a millionth is spendable, an amount above zero, at most the spendable amount and less than a millionth below it; the balance path as written |
| SendAssetSheet.IntendedMaxFillPassesAmountChecks | src/components/SendAssetSheet/SendAssetSheet.tsx:89-146 | whatever the corrected Max fills in passes the amount and XRP spendable checks, and filled from the balance also the balance checks |
| SendAssetSheet.ShapeTransfer | src/components/SendAssetSheet/SendAssetSheet.tsx:505-516 | the recipient has every whitespace removed, the amount is trimmed, the chain is the lower-cased asset id |
| SendAssetSheet.Submit | src/components/SendAssetSheet/SendAssetSheet.tsx:497-533 | sends exactly when not busy, valid and without a passcode, and asks for the passcode exactly when one is set; a busy or invalid form does nothing |
| SendAssetSheet.SubmitWithPasscode | src/components/SendAssetSheet/SendAssetSheet.tsx:551-578 | the same shaping as the direct send, carrying the passcode the prompt reports |
| PasscodePage.PlanSave | src/pages/PasscodePage/PasscodePage.tsx:35-75 | nothing while busy; the current-passcode alert exactly when enabled without a six-character current passcode; an update only for a six-character new passcode typed twice, carrying the current passcode exactly when one is enabled |
| PasscodePage.SaveButtonMatchesGuards | src/pages/PasscodePage/PasscodePage.tsx:221-230 | the Save button is enabled exactly when a click sends the update |
| PasscodePage.HandleSave | src/pages/PasscodePage/PasscodePage.tsx:35-89 | a click while busy does nothing; a request is made exactly when the plan sends one; the page moves to settings exactly when that request succeeds; a failure alerts the request's text or "Failed to update passcode" |
| PasscodePage.HandleDisable | src/pages/PasscodePage/PasscodePage.tsx:91-98 | straight back to settings exactly when busy or no passcode is set, otherwise the prompt opens with its error cleared |
| PasscodePage.DisablePayload | src/pages/PasscodePage/PasscodePage.tsx:261-263 | one disable field holding the current passcode when the prompt gives one, an empty object otherwise |
| PasscodePage.SubmitDisable | src/pages/PasscodePage/PasscodePage.tsx:259-270 | the disable request is sent; on success the prompt closes and the page moves to settings; on failure the prompt stays with the request's text or "Invalid passcode" |
| PasscodePromptModal.TitlesDiffer | src/components/PasscodePromptModal/PasscodePromptModal.tsx:28 | the four modes show four different headings |
| PasscodePromptModal.OkWaitsForVisibleInputs | src/components/PasscodePromptModal/PasscodePromptModal.tsx:34-76 | when not busy, OK is disabled exactly when one of the inputs shown in that mode is empty |
| PasscodePromptModal.ParamsOf | src/components/PasscodePromptModal/PasscodePromptModal.tsx:80 | an empty input is passed as absent and a filled one as itself |
| PasscodePromptModal.PressOk | src/components/PasscodePromptModal/PasscodePromptModal.tsx:74-84 | a disabled press does nothing; an enabled one hands both inputs to the caller and leaves the prompt not busy, passing on the caller's error when it fails |
| PasscodePromptModal.PressedParamsCarryVisibleInputs | src/components/PasscodePromptModal/PasscodePromptModal.tsx:34-80 | in every mode, an accepted press hands over each input that is on screen, filled |
| BackupEmailPage.IsEmailMatches | src/pages/BackupEmailPage/BackupEmailPage.tsx:40 | a text without whitespace with one '@' and a dot strictly inside the part after it matches the address pattern |
| BackupEmailPage.MatchesIsEmail | src/pages/BackupEmailPage/BackupEmailPage.tsx:40 | a text matching the address pattern has no whitespace, one '@' and a dot strictly inside the part after it |
| BackupEmailPage.EmailPatternIff | src/pages/BackupEmailPage/BackupEmailPage.tsx:40 | the address pattern accepts exactly the texts of that shape |
| BackupEmailPage.PiecesFormEmail | src/pages/BackupEmailPage/BackupEmailPage.tsx:40 | any three non-empty pieces without whitespace or '@', joined by '@' and '.', form an accepted address |
| BackupEmailPage.AcceptedEmailShape | src/pages/BackupEmailPage/BackupEmailPage.tsx:40 | an accepted address has no whitespace, exactly one '@' not at either end, and a dot strictly inside its domain |
| BackupEmailPage.HandleSave | src/pages/BackupEmailPage/BackupEmailPage.tsx:36-81 | a non-empty trimmed text that is not an address is refused with the invalid-address alert; otherwise the trimmed text (or null) is saved, success leads to settings with the saved or removed message, failure alerts; never left saving |
| BackupEmailPage.SavedValueIsAddressOrNull | src/pages/BackupEmailPage/BackupEmailPage.tsx:37-54 | the value sent is null or a trimmed text the address pattern accepts |
| SettingsPage.SplitAtSign | src/pages/SettingsPage/SettingsPage.tsx:56 | the first two pieces of the address split at '@' are the text before the first '@' and the text between the first and second '@' |
| SettingsPage.MaskEmail | src/pages/SettingsPage/SettingsPage.tsx:54-60 | empty exactly when the local part or the domain is missing; otherwise at most two leading characters of the local part, "***" exactly when more are hidden, '@' and the domain |
| SettingsPage.MaskHidesLocalPart | src/pages/SettingsPage/SettingsPage.tsx:58-59 | two local parts longer than two characters with the same first two characters mask alike |
| SettingsPage.SavedEmailMasks | src/pages/SettingsPage/SettingsPage.tsx:54-60 | every address the backup page accepts masks to a non-empty text that keeps the whole domain |
| SettingsPage.WalletCountLabel | src/pages/SettingsPage/SettingsPage.tsx:188-189 | the label starts with the count and ends in "s" exactly when the count is not 1 |
| SettingsPage.ExportClick | src/pages/SettingsPage/SettingsPage.tsx:390-416 | ignored while exporting; with a passcode set only the prompt opens; otherwise the phrase is requested without a passcode and shown, or the failure alert appears; never left exporting |
| SettingsPage.VerifySubmit | src/pages/SettingsPage/SettingsPage.tsx:622-637 | the phrase is requested with the prompt's passcode; success shows the phrase and closes the prompt, failure keeps it with a non-empty error |
| SettingsPage.ExportNeedsPasscodeWhenEnabled | src/pages/SettingsPage/SettingsPage.tsx:394-400 | with a passcode set, a click requests nothing and the prompt's request carries the passcode |
| SeedPhraseModal.Words | src/components/SeedPhraseModal/SeedPhraseModal.tsx:64 | splitting at whitespace runs gives at least one piece and no piece contains whitespace |
| SeedPhraseModal.MnemonicWords | src/components/SeedPhraseModal/SeedPhraseModal.tsx:64 | a blank phrase gives one empty word; any other phrase gives only non-empty words; no word contains whitespace |
| SeedPhraseModal.JoinWordsIsCollapse | src/components/SeedPhraseModal/SeedPhraseModal.tsx:64 | joining the pieces with single spaces gives the text with each whitespace run collapsed to one space |
| SeedPhraseModal.WordsOfJoin | src/components/SeedPhraseModal/SeedPhraseModal.tsx:64 | non-empty words without whitespace, joined with single spaces, split back into the same words |
| SeedPhraseModal.Grid | src/components/SeedPhraseModal/SeedPhraseModal.tsx:141-147 | the grid holds every word of the phrase in order, numbered from 1 |
| SeedPhraseModal.GridReadsBackPhrase | src/components/SeedPhraseModal/SeedPhraseModal.tsx:64 | reading the grid's words back with single spaces gives the trimmed phrase with whitespace runs collapsed |
| SeedPhraseModal.CopyText | src/components/SeedPhraseModal/SeedPhraseModal.tsx:37-40 | nothing is copied for an empty phrase; otherwise exactly the phrase as given |
| TransactionHistory.SliceTo | src/components/TransactionHistory/TransactionHistory.tsx:39 | a prefix of the list: the first n records for n >= 0, all but the last -n for a negative n |
| TransactionHistory.HistoryCard | src/components/TransactionHistory/TransactionHistory.tsx:37-168 | lists a prefix of at most maxItems records; the empty state exactly when nothing is listed; "See all" exactly when something is listed and there are more records than maxItems |
| TransactionHistory.DefaultCardShowsNewest | src/components/TransactionHistory/TransactionHistory.tsx:37-39 | on a list sorted newest first, the default card lists up to five records, each at least as new as every record it hides |
| TransactionHistory.Sign | src/components/TransactionHistory/TransactionHistory.tsx:114-125 | "+" exactly for receive and buy records, "-" otherwise |
| TransactionHistory.AmountText | src/components/TransactionHistory/TransactionHistory.tsx:114-117 | the sign followed by the eight-decimal rendering without its zero tail |
| TransactionHistory.FiatText | src/components/TransactionHistory/TransactionHistory.tsx:41-125 | the sign, the base currency's symbol (empty when unknown), then the two-decimal rendering |
| TransactionHistory.AmountLinesAgree | src/components/TransactionHistory/TransactionHistory.tsx:114-125 | a record's crypto and fiat lines carry the same sign |
| TransactionHistory.FormatDateRanges | src/components/TransactionHistory/TransactionHistory.tsx:127-143 | "Just now" below a minute, minutes below an hour, hours below a day, days below a week, the locale date after; each count is the elapsed time rounded down to its unit and lies in its bucket's range |
| TransactionHistory.FormatDateMonotone | src/components/TransactionHistory/TransactionHistory.tsx:127-143 | as the clock advances, a record's relative-time bucket never moves back to a shorter one |
| TransactionHistory.TypeLabel | src/components/TransactionHistory/TransactionHistory.tsx:184-185 | same length as the type, first letter upper-cased, the rest unchanged, equal to the type ignoring case |
| Text.StripZeros | src/components/TransactionHistory/TransactionHistory.tsx:116 | removes the leftmost suffix made of an optional dot and one or more zeros, and nothing when there is none |
| Text.StripZerosKeepsWhole | src/components/TransactionHistory/TransactionHistory.tsx:116 | on a digits "." digits rendering the whole part is always kept, so "100.00000000" keeps its "100" |
| Seqs.Dedup | src/helpers/price.ts:73 | every value of the list once: the same values, no repeats, no longer than the list (their order is not stated) |
| HistoryPage.TitleWord | pages/HistoryPage/HistoryPage.tsx:20 | "Sent" exactly for a send, "Received" exactly for a receive, "Buy" for every other type; never empty, no whitespace |
| HistoryPage.DescSign | pages/HistoryPage/HistoryPage.tsx:21 | "-" exactly for a send, "+" for every other type |
| HistoryPage.TitleReadsBack | pages/HistoryPage/HistoryPage.tsx:20 | the title splits at its first space back into the type word and the asset |
| HistoryPage.Desc | pages/HistoryPage/HistoryPage.tsx:21 | the row's amount text starts with its sign and ends with the asset |
| HistoryPage.DescSignAgainstCard | pages/HistoryPage/HistoryPage.tsx:21 | the row and the home card sign send, receive and buy records alike, and every other type oppositely |
| HistoryPage.Fmt | pages/HistoryPage/HistoryPage.tsx:12-17 | no valid date gives an empty date and time; a valid one gives its locale date and time |
| HistoryPage.ItemOf | pages/HistoryPage/HistoryPage.tsx:19-24 | a row carries its record's id, the record itself, its title and its amount text |
| HistoryPage.Items | pages/HistoryPage/HistoryPage.tsx:19-24 | one row per record, in the store's order |
| HistoryPage.ItemsKeepIdsAndOrder | pages/HistoryPage/HistoryPage.tsx:19-24 | each row keeps its record's id and links back to it, so distinct record ids give distinct row keys |
| HistoryPage.RowSignMatchesTitle | pages/HistoryPage/HistoryPage.tsx:20-21 | a row's amount starts with "-" exactly when its title starts with "Sent" |
| HistoryPage.EmptyMessageIff | pages/HistoryPage/HistoryPage.tsx:51-53 | "No transactions yet" is shown exactly when loading is over and the store holds no record |
| HistoryPage.Icon | pages/HistoryPage/HistoryPage.tsx:59-63 | the icon agrees with the title word: send, receive or the history icon for "Sent", "Received" and "Buy" |
| HistoryPage.Open | pages/HistoryPage/HistoryPage.tsx:55 | a click goes to "/transaction/" followed by the row's id, with the store record as the navigation state |
| TransactionDetailsPage.Symbol | src/pages/TransactionDetailsPage/TransactionDetailsPage.tsx:9 | "USDT" for the TRC-20 token chain, otherwise the chain upper-cased; the result is already upper case |
| TransactionDetailsPage.StatusLabel | src/pages/TransactionDetailsPage/TransactionDetailsPage.tsx:11 | empty exactly without a status; "Successful" for a confirmed one; any other status as given |
| TransactionDetailsPage.Last | src/pages/TransactionDetailsPage/TransactionDetailsPage.tsx:14 | the last n characters, or all of a shorter text |
| TransactionDetailsPage.ShortHash | src/pages/TransactionDetailsPage/TransactionDetailsPage.tsx:13-14 | empty exactly without a hash; otherwise the hash's first six characters, "...", and its last four |
| TransactionDetailsPage.ShortHashHidesMiddle | src/pages/TransactionDetailsPage/TransactionDetailsPage.tsx:14 | two hashes of ten or more characters that share their first six and last four shorten to the same 13 characters |
| TransactionDetailsPage.PartyText | src/pages/TransactionDetailsPage/TransactionDetailsPage.tsx:99-103 | never empty: the address field, else the second field, else "-" |
| TransactionDetailsPage.DetailsOf | src/pages/TransactionDetailsPage/TransactionDetailsPage.tsx:7-15 | outgoing exactly for the "out" direction; the amount and funds texts are empty exactly for a zero amount and otherwise carry the sign and unit; the time is the timestamp times 1000, present exactly when the timestamp field is truthy |
| TransactionDetailsPage.NoStatePlaceholders | src/pages/TransactionDetailsPage/TransactionDetailsPage.tsx:7-15 | opened without a state the page shows empty texts, "Receive" and "-" for both parties |
| TransactionDetailsPage.CopyHash | src/pages/TransactionDetailsPage/TransactionDetailsPage.tsx:13-22 | nothing is copied without a hash; otherwise the full hash, which shortens to the hash shown |
| TransactionDetailsPage.StateOfRecord | pages/HistoryPage/HistoryPage.tsx:55 | the store record handed over has no direction, chain, txid, from or to; it keeps its timestamp, which as a date is always truthy, its amount, hash, status and addresses |
| TransactionDetailsPage.RecordShownAsIncoming | src/pages/TransactionDetailsPage/TransactionDetailsPage.tsx:8-15 | every non-zero store record opened from the history page is shown as received, with no unit, at a thousand times its instant, and with a time even at instant 0 |
| TransactionDetailsPage.SentRecordShownAsReceived | src/pages/TransactionDetailsPage/TransactionDetailsPage.tsx:8-10 | a sent record whose row says "Sent" and "-" opens as "Receive" with "+" |
| TransactionDetailsPage.RecordDetails | src/pages/TransactionDetailsPage/TransactionDetailsPage.tsx:7-15 | read from the store's fields: outgoing exactly for a send, the unit is the asset, the time is the timestamp itself, and the sign matches the row's |
| TransactionDetailsPage.RecordDetailsAgreeWithRow | pages/HistoryPage/HistoryPage.tsx:19-24 | read from the store's fields, the details page has the row's sign, says "Send" exactly for a "Sent" row, and shows the row's instant |
| TransactionDetailsPage.RecordDetailsKeepOtherFields | src/pages/TransactionDetailsPage/TransactionDetailsPage.tsx:11-14 | the corrected reading keeps the status, hash and parties of the page as written |
| AssetList.Positive | src/components/AssetList/AssetList.tsx:39 | keeps exactly the assets with a positive balance and nothing else |
| AssetList.PositiveConcat | src/components/AssetList/AssetList.tsx:39 | filtering a concatenation filters each part in place, so kept assets keep their order |
| AssetList.PositiveIdempotent | src/components/AssetList/AssetList.tsx:39 | filtering the filtered list changes nothing |
| AssetList.Visible | src/components/AssetList/AssetList.tsx:38-40 | all assets when zero balances are shown; when hidden, exactly the positive ones, and all of them when every balance is positive |
| AssetList.ToggleText | src/components/AssetList/AssetList.tsx:84 | "Show" while zero balances are hidden, "Hide" otherwise, followed by " 0 Balance" |
| AssetList.ShowAllWhenNothingPositive | src/components/AssetList/AssetList.tsx:144-158 | "Show all assets" appears exactly when zero balances are hidden and no balance is positive, and pressing it lists every asset |
| AssetList.BalanceText | src/components/AssetList/AssetList.tsx:42-44 | the eight-decimal rendering without its zero tail, a space, the symbol |
| AssetList.BaseParts | src/components/AssetList/AssetList.tsx:90-92 | the whole part never contains a decimal point |
| AssetList.BasePartsReadBack | src/components/AssetList/AssetList.tsx:90-92 | a rendering with one decimal point splits back into its whole part and its decimals; one without gives "00" as decimals |
| AssetList.ChangeText | src/components/AssetList/AssetList.tsx:60-63 | "+" before a change of zero or more, then the two-decimal rendering, then "%" |
| AssetList.ChangeColor | src/components/AssetList/AssetList.tsx:135 | green exactly for a change of zero or more, rose exactly for a negative one |
| AssetList.ColorMatchesSign | src/components/AssetList/AssetList.tsx:60-63 | the colour is green exactly when the change text starts with "+" |
| IndexPage.LocalChainToId | src/pages/IndexPage/IndexPage.tsx:138-139 | only the exact "usdt-trc20" is renamed to "usdt"; every other chain is its own id |
| IndexPage.LocalChainToIdNarrower | src/pages/IndexPage/IndexPage.tsx:138-139 | unlike the store's table, the page renames neither the ERC-20 USDT chain nor an upper-case spelling |
| IndexPage.LastMatch | src/pages/IndexPage/IndexPage.tsx:142-146 | absent exactly when no wallet maps to the id; otherwise a wallet mapping to it with no later one doing so |
| IndexPage.MapsHoldLastMatch | src/pages/IndexPage/IndexPage.tsx:140-146 | both maps hold an id exactly when some wallet maps to it, with the last such wallet's balance and address |
| IndexPage.MergeOne | src/pages/IndexPage/IndexPage.tsx:149-164 | the merge changes only an asset's address, balance, fiat value, price and change |
| IndexPage.MergeAssets | src/pages/IndexPage/IndexPage.tsx:136-167 | nothing changes without wallets; otherwise the same assets in the same order keep their id, name, symbol and icon |
| IndexPage.MergedHoldings | src/pages/IndexPage/IndexPage.tsx:150-155 | a merged asset takes the last matching wallet's balance and its address when non-empty, and keeps its own without a match |
| IndexPage.MergedPrices | src/pages/IndexPage/IndexPage.tsx:150-163 | the fiat value is the balance at the store price (0 without one); the price and change come from the store where it has them, else stay |
| IndexPage.OtherUsdtChainsNotMerged | src/pages/IndexPage/IndexPage.tsx:138-155 | a USDT wallet on the ERC-20 chain leaves the page's USDT asset at zero and without an address |
| IndexPage.ToggleZeroBalances | src/pages/IndexPage/IndexPage.tsx:218-223 | only the hide flag changes, and it flips |
| IndexPage.ToggleTwice | src/pages/IndexPage/IndexPage.tsx:218-223 | toggling twice restores the page |
| IndexPage.Recent | src/pages/IndexPage/IndexPage.tsx:185 | the store's first five records, or all of fewer |
| IndexPage.HomeCardNeverSeeAll | src/pages/IndexPage/IndexPage.tsx:185-315 | as written, the home card lists the recent records and never shows "See all", however many records there are |
| IndexPage.SixRecordsNoSeeAll | src/pages/IndexPage/IndexPage.tsx:311-315 | six records, more than the card's five, and still no "See all" |
| IndexPage.IntendedHomeCard | src/components/TransactionHistory/TransactionHistory.tsx:37-168 | given the whole list, the card still lists the first five records, shows "See all" exactly when there are more than five, and is empty exactly without records |

## Left out

- The commented-out older store at the top of src/stores/wallet.ts (lines 1-412) is dead code and is not modelled.
- `getLaunchData` and the launch-data header (src/helpers/api.ts:3-58, src/helpers/socket.ts): they read a browser global, and their structured branch cannot run. The model carries no headers, and `API_BASE` is only a prefix of the paths.
- Network I/O is not modelled. This covers `fetch`, the price provider, the socket.io connection and the keyring, transfer and export endpoints. Their answers are `Result` parameters, and the price provider's body is an abstract map.
- localStorage reads and writes and the `requestIdleCallback`/`setTimeout` deferral of transaction loads are left out. They are returned as effect values and never carried out.
- Concurrency is left out: two async actions never interleave, and each action is one sequential transition.
- IEEE floating point is not modelled. The renderings of `toFixed`, `Intl.NumberFormat`, `toLocaleString` and `String(number)` are inputs, and so is the value of `parseFloat`. Amounts are exact `real`s, and `Number(...)` coercion is a `JsNumber` value (NaN, Infinity or a finite real).
- The `Date` time clip is not modelled: timestamps are real milliseconds, with no truncation and no ±8.64e15 range.
- Locale date and time texts are left out; they are functions passed in.
- `toUpperCase` and `toLowerCase` are modelled on ASCII letters only; non-ASCII case mapping is left out.
- The clipboard, haptic feedback, Telegram popups and `alert` are left out. The model returns the text that would be copied or shown.
- Stability of the store's sort is left out. `StoreTransactions.SortNewestFirst` states a newest-first permutation of the records; it does not state that records with equal timestamps keep their order.
- NaN wallet balances are left out: the store's balances are finite `real`s.
- StoreTransactions.Normalize: the record's `amount` and `amountUSD` are finite `real`s. The store coerces them with `Number(x || 0)` (src/stores/wallet.ts:661-662), which gives NaN for a text that is not a number; that record is not modelled. The details page would treat a NaN amount as falsy and show neither the amount nor the funds used (src/pages/TransactionDetailsPage/TransactionDetailsPage.tsx:10,12).
- PinInput.HandleChange: the model counts code points where `v.length` counts UTF-16 code units (src/components/PinInput/PinInput.tsx:46). A single character outside the Basic Multilingual Plane, such as "😀", has length 2 in the browser: the source takes the paste branch, finds no digit and does nothing, while the model types it and moves the focus on.
- SettingsPage.MaskEmail: `slice(0, 2)` and `length > 2` count UTF-16 code units in the source (src/pages/SettingsPage/SettingsPage.tsx:56-59) and code points in the model. For the local part "😀ab" the source shows "😀***@…" and the model "😀a***@…".
- TransactionDetailsPage.ShortHash and TransactionHistory.TypeLabel also count code points where `slice` and `charAt` count UTF-16 code units; they agree on hashes and transaction types, which are ASCII.
- SendAssetSheet.MaxClick: the six-decimal rendering is an input, and its number is the exact rounding of the real amount; `toFixed` switching to exponent notation at 10^21 is not modelled.
- Other effects of the home page are not modelled: the total and currency sync, refresh, notifications and the Telegram user block.
- Pure presentation components are left out. These include the balance display, headers, menus, the send and receive sheets' QR and share code, the onboarding and wallet-management pages, and the route tables.
- TransactionHistory.HistoryCard: `maxItems` is an integer. The component also accepts a fractional number, which `slice` truncates, and that case is not modelled.

## Findings

| source | as written | input that shows it | evidently intended | confidence | as-written member | corrected member |
|---|---|---|---|---|---|---|
| src/components/SendAssetSheet/SendAssetSheet.tsx:94-117 | `isValid` requires only `meetsMin`, and that test is `amount >= minRequired`; for a symbol without a configured minimum it accepts an amount of 0, although the same memo flags 0 as an invalid number | XRP asset with balance 5 and spendable amount 5, address "addr", amount text "0" | the Send button also requires a strictly positive amount (`hasValidAmount`) | not executed; latent: the home page opens the sheet (src/pages/IndexPage/IndexPage.tsx:324, through SendSheet) only for BTC, ETH, USDT and TRX, which all have a positive minimum, and there the correction changes nothing (SendAssetSheet.CorrectionOnlyMattersWithoutMinimum); it shows for an asset without a minimum, such as the XRP the sheet handles | SendAssetSheet.ZeroAmountAccepted | SendAssetSheet.IntendedValidate |
| src/pages/TransactionDetailsPage/TransactionDetailsPage.tsx:8-15 | the page reads `direction`, `chain` and a timestamp in seconds, but the history page (pages/HistoryPage/HistoryPage.tsx:55) hands it the store's record, which has `type`, `asset` and a timestamp in milliseconds | a sent BTC record of 0.5: its row reads "Sent BTC" and "-0.5 BTC", but its details read "Receive" and "+0.5 " with no unit, at a thousand times its instant | the details of a record agree with its row: sign, description, unit and time | not executed | TransactionDetailsPage.RecordShownAsIncoming | TransactionDetailsPage.RecordDetails |
| src/pages/IndexPage/IndexPage.tsx:185-315 | the home card is given only the first five records and keeps its default `maxItems` of five, so its "See all" test (src/components/TransactionHistory/TransactionHistory.tsx:162) never holds | a store with six records: no "See all" button on the home page | "See all" appears when the store holds more records than the card lists | not executed | IndexPage.HomeCardNeverSeeAll | IndexPage.IntendedHomeCard |
| src/components/SendAssetSheet/SendAssetSheet.tsx:133-141 | Max fills in the spendable XRP rendered by `toFixed(6)`, which rounds to the nearest millionth, so it can round up past the spendable amount | spendable 0.1234567 XRP: the field reads "0.123457", above the spendable amount, so Send is disabled | Max fills the spendable amount rounded down to six decimals | not executed; latent: XRP amounts are whole millionths (drops), so a spendable amount reported exactly has at most six decimals | SendAssetSheet.MaxOverfillsSpendable | SendAssetSheet.IntendedMaxClick |
| src/components/SendAssetSheet/SendAssetSheet.tsx:133-141 | Max fills whenever the unrounded spendable amount is above zero, even when its six-decimal rendering is "0" | spendable 0.0000004 XRP: the field reads "0", which the memo flags as an invalid number | Max fills only when the rounded amount is above zero | not executed; latent, for the same reason | SendAssetSheet.MaxFillsZero | SendAssetSheet.IntendedMaxClick |
