/** Fiat currency tables (src/config/fiats.ts and its older copy
    config/fiats.ts). Both copies hold the same codes, labels and symbols;
    they differ only in how an icon is referenced: the newer copy imports a
    bundled image, the older one points at a public path. */
module Fiats {
  import opened Wrappers
  import opened Text

  datatype Variant = Bundled | PublicPath

  datatype Meta = Meta(labelText: string, icon: Option<string>)

  datatype Badge = Icon(value: string) | Initials(value: string)

  /** `FIAT_CURRENCIES`, in display order. */
  const Currencies: seq<string> := ["USD", "AED", "INR", "BDT", "PKR", "RUB"]

  /** The labels of `FIAT_META`. */
  const Labels: map<string, string> := map[
    "USD" := "United States Dollar", "EUR" := "Euro", "GBP" := "Pound sterling",
    "JPY" := "Japanese yen", "CNY" := "Chinese yuan renminbi", "INR" := "Indian rupee",
    "BDT" := "Bangladeshi taka", "PKR" := "Pakistani rupee", "AUD" := "Australian dollar",
    "CAD" := "Canadian dollar", "CHF" := "Swiss franc", "HKD" := "Hong Kong dollar",
    "SGD" := "Singapore dollar", "SEK" := "Swedish krona", "NZD" := "New Zealand dollar",
    "KRW" := "South Korean won", "TRY" := "Turkish lira", "RUB" := "Russian ruble",
    "BRL" := "Brazilian real", "ZAR" := "South African rand", "MXN" := "Mexican peso",
    "AED" := "United Arab Emirates dirham"
  ]

  /** The codes whose `FIAT_META` entry carries an icon. */
  const IconCodes: set<string> := {"USD", "EUR", "GBP", "CNY", "BDT", "PKR", "RUB", "AED"}

  /** `FIAT_SYMBOLS`. */
  const Symbols: map<string, string> := map[
    "USD" := "$", "EUR" := "€", "GBP" := "£", "JPY" := "¥", "CNY" := "¥",
    "INR" := "₹", "BDT" := "৳", "PKR" := "₨", "AUD" := "A$", "CAD" := "C$",
    "CHF" := "CHF", "HKD" := "HK$", "SGD" := "S$", "SEK" := "kr", "NZD" := "NZ$",
    "KRW" := "₩", "TRY" := "₺", "RUB" := "₽", "BRL" := "R$", "ZAR" := "R",
    "MXN" := "MX$", "AED" := "AED"
  ]

  /** `FIAT_SYMBOLS[code] ?? ""`: the sign shown before amounts in the base
      currency, nothing for a code without one. */
  function SymbolOrEmpty(code: string): (r: string)
    ensures code in Symbols ==> r == Symbols[code] && r != ""
    ensures code !in Symbols ==> r == ""
  {
    if code in Symbols then Symbols[code] else ""
  }

  /** Where the icon of `code` lives in each copy. For the bundled copy this
      is the text of the asset import, a stand-in for the URL the bundler
      gives the image; the public copy's path is the real one. */
  function IconRef(variant: Variant, code: string): string {
    match variant
    case Bundled => "data-base64:@assets/public/" + Lower(code) + ".png"
    case PublicPath => "/" + Lower(code) + ".png"
  }

  lemma IconRefNonEmpty(variant: Variant, code: string)
    ensures code in FiatMeta(variant) && FiatMeta(variant)[code].icon.Some? ==>
      FiatMeta(variant)[code].icon.value != ""
  {
    var m := FiatMeta(variant);
    if code in m && m[code].icon.Some? {
      assert m[code] == Meta(Labels[code], Some(IconRef(variant, code)));
    }
  }

  /** `FIAT_META` of the given copy. */
  function FiatMeta(variant: Variant): (m: map<string, Meta>)
    ensures m.Keys == Labels.Keys
    ensures forall c :: c in m ==> (m[c].icon.Some? <==> c in IconCodes)
  {
    map c | c in Labels :: Meta(Labels[c], if c in IconCodes then Some(IconRef(variant, c)) else None)
  }

  /** Every listed currency has a label and a symbol. */
  lemma CurrenciesCovered(variant: Variant)
    ensures forall c :: c in Currencies ==> c in FiatMeta(variant) && c in Symbols
  {
  }

  /** The label table and the symbol table describe the same currencies. */
  lemma MetaAndSymbolsAgree(variant: Variant)
    ensures FiatMeta(variant).Keys == Symbols.Keys
  {
  }

  lemma CurrenciesDistinct()
    ensures forall i, j :: 0 <= i < j < |Currencies| ==> Currencies[i] != Currencies[j]
  {
  }

  /** `getFiatIconOrFallback`: the icon when the table has one, otherwise the
      first two letters of the code upper-cased. */
  function GetFiatIconOrFallback(variant: Variant, code: string): (b: Badge)
    ensures b.Icon? <==> code in FiatMeta(variant) && FiatMeta(variant)[code].icon.Some?
    ensures b.Icon? ==> b.value == FiatMeta(variant)[code].icon.value
    ensures b.Initials? ==> |b.value| <= 2 && |b.value| == (if |code| < 2 then |code| else 2)
    ensures b.Initials? ==> StartsWith(Upper(code), b.value)
  {
    var meta := FiatMeta(variant);
    var icon := if code in meta then meta[code].icon else None;
    IconRefNonEmpty(variant, code);
    if icon.Some? && icon.value != "" then
      Icon(icon.value)
    else Initials(InitialsOf(code))
  }

  /** The first two characters of the code, upper-cased. */
  function InitialsOf(code: string): (r: string)
    ensures |r| <= 2 && |r| == (if |code| < 2 then |code| else 2)
    ensures StartsWith(Upper(code), r)
  {
    var up := Upper(code);
    if |up| < 2 then up else up[..2]
  }
}
