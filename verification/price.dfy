/** Spot prices and 24h changes for a set of asset ids (src/helpers/price.ts).
    The provider call is an input: either it failed (network error, non-ok
    status, unreadable body) or it returned a JSON body mapping provider ids
    to per-currency fields. */
module Price {
  import opened Text
  import opened Seqs
  import opened Wrappers

  /** A field of a provider entry: a JSON number (always finite) or anything else. */
  datatype Field = Num(value: real) | NotANumber

  datatype ProviderResponse =
    | Unavailable
    | Body(data: map<string, map<string, Field>>)

  /** What would be sent to the provider: the distinct ids and the currency. */
  datatype ProviderRequest = ProviderRequest(ids: seq<string>, vs: string)

  datatype Quotes = Quotes(prices: map<string, real>, changes: map<string, real>)

  const Empty := Quotes(map[], map[])

  /** `DEFAULT_ID_MAP`. */
  const DefaultIdMap: map<string, string> :=
    map["bitcoin" := "bitcoin", "ethereum" := "ethereum", "tron" := "tron", "usdt" := "tether"]

  /** `{ ...DEFAULT_ID_MAP, ...customMap }`: custom entries win. */
  function IdMap(customMap: map<string, string>): (m: map<string, string>)
    ensures m.Keys == DefaultIdMap.Keys + customMap.Keys
    ensures forall k :: k in customMap ==> m[k] == customMap[k]
    ensures forall k :: k in DefaultIdMap && k !in customMap ==> m[k] == DefaultIdMap[k]
  {
    DefaultIdMap + customMap
  }

  /** The provider id of an asset id: its mapping, or the id itself when it
      has no (non-empty) mapping. */
  function ProviderId(idMap: map<string, string>, id: string): string {
    if id in idMap && idMap[id] != "" then idMap[id] else id
  }

  function MapIds(idMap: map<string, string>, ids: seq<string>): (r: seq<string>)
    ensures |r| == |ids|
    ensures forall i :: 0 <= i < |ids| ==> r[i] == ProviderId(idMap, ids[i])
  {
    if |ids| == 0 then [] else [ProviderId(idMap, ids[0])] + MapIds(idMap, ids[1..])
  }

  /** `.filter(Boolean)` on strings: the empty string is dropped. */
  function NonEmpty(ids: seq<string>): (r: seq<string>)
    ensures forall x :: x in r <==> x in ids && x != ""
  {
    if |ids| == 0 then []
    else if ids[0] == "" then NonEmpty(ids[1..])
    else [ids[0]] + NonEmpty(ids[1..])
  }

  /** The de-duplicated provider ids the batched request asks for. */
  function ProviderIds(idMap: map<string, string>, assetIds: seq<string>): (r: seq<string>)
    ensures Distinct(r)
    ensures forall g :: g in r <==> g != "" && exists i :: 0 <= i < |assetIds| && g == ProviderId(idMap, assetIds[i])
  {
    var mapped := MapIds(idMap, assetIds);
    assert forall g :: g in mapped <==> exists i :: 0 <= i < |assetIds| && g == ProviderId(idMap, assetIds[i]) by {
      forall g | exists i :: 0 <= i < |assetIds| && g == ProviderId(idMap, assetIds[i])
        ensures g in mapped
      {
        var i :| 0 <= i < |assetIds| && g == ProviderId(idMap, assetIds[i]);
        assert mapped[i] == g;
      }
    }
    Dedup(NonEmpty(mapped))
  }

  /** The quote currency: the base currency lower-cased, USD without one. */
  function Vs(baseCurrency: string): (vs: string)
    ensures baseCurrency == "" ==> vs == "usd"
    ensures baseCurrency != "" ==> vs == Lower(baseCurrency)
  {
    Lower(if baseCurrency == "" then "USD" else baseCurrency)
  }

  /** The numeric field `key` of the provider entry for `gid`, if any. */
  predicate HasNum(data: map<string, map<string, Field>>, gid: string, key: string) {
    gid in data && key in data[gid] && data[gid][key].Num?
  }

  /** One result map, keyed by input asset id, from field `key` of each entry. */
  function Collect(data: map<string, map<string, Field>>, idMap: map<string, string>,
                   assetIds: seq<string>, key: string): (out: map<string, real>)
    ensures forall a :: a in out <==> a in assetIds && HasNum(data, ProviderId(idMap, a), key)
    ensures forall a :: a in out ==> HasNum(data, ProviderId(idMap, a), key) && out[a] == data[ProviderId(idMap, a)][key].value
  {
    if |assetIds| == 0 then map[]
    else
      var rest := Collect(data, idMap, assetIds[..|assetIds| - 1], key);
      var a := assetIds[|assetIds| - 1];
      var g := ProviderId(idMap, a);
      assert forall x :: x in assetIds <==> x in assetIds[..|assetIds| - 1] || x == a;
      if HasNum(data, g, key) then rest[a := data[g][key].value] else rest
  }

  /** `fetchPricesAndChange`: the request that would be made (none when no
      provider id remains) and the two maps keyed by the input ids. */
  function FetchPricesAndChange(assetIds: seq<string>, baseCurrency: string,
                                customMap: map<string, string>, response: ProviderResponse)
    : (out: (Option<ProviderRequest>, Quotes))
    ensures out.0.None? <==> ProviderIds(IdMap(customMap), assetIds) == []
    ensures out.0.Some? ==> out.0.value == ProviderRequest(ProviderIds(IdMap(customMap), assetIds), Vs(baseCurrency))
    ensures (out.0.None? || response.Unavailable?) ==> out.1 == Empty
    ensures out.1.prices.Keys <= set a | a in assetIds
    ensures out.1.changes.Keys <= set a | a in assetIds
    ensures out.0.Some? && response.Body? ==>
      var idMap := IdMap(customMap);
      var vs := Vs(baseCurrency);
      (forall a :: a in out.1.prices <==> a in assetIds && HasNum(response.data, ProviderId(idMap, a), vs))
      && (forall a :: a in out.1.changes <==> a in assetIds && HasNum(response.data, ProviderId(idMap, a), vs + "_24h_change"))
      && (forall a :: a in out.1.prices ==>
            HasNum(response.data, ProviderId(idMap, a), vs)
            && out.1.prices[a] == response.data[ProviderId(idMap, a)][vs].value)
      && (forall a :: a in out.1.changes ==>
            HasNum(response.data, ProviderId(idMap, a), vs + "_24h_change")
            && out.1.changes[a] == response.data[ProviderId(idMap, a)][vs + "_24h_change"].value)
  {
    var idMap := IdMap(customMap);
    var gids := ProviderIds(idMap, assetIds);
    if gids == [] then (None, Empty)
    else
      var vs := Vs(baseCurrency);
      var request := Some(ProviderRequest(gids, vs));
      match response
      case Unavailable => (request, Empty)
      case Body(data) =>
        (request, Quotes(Collect(data, idMap, assetIds, vs), Collect(data, idMap, assetIds, vs + "_24h_change")))
  }

  /** Two input ids that resolve to the same provider id get the same price
      and the same change. */
  lemma SharedProviderIdSameQuotes(assetIds: seq<string>, baseCurrency: string,
                                   customMap: map<string, string>, response: ProviderResponse,
                                   a: string, b: string)
    requires a in assetIds && b in assetIds
    requires ProviderId(IdMap(customMap), a) == ProviderId(IdMap(customMap), b)
    ensures var q := FetchPricesAndChange(assetIds, baseCurrency, customMap, response).1;
      (a in q.prices <==> b in q.prices) && (a in q.prices ==> q.prices[a] == q.prices[b])
      && (a in q.changes <==> b in q.changes) && (a in q.changes ==> q.changes[a] == q.changes[b])
  {
  }

  /** `fetchPrices`: the same rules, prices only. */
  function FetchPrices(assetIds: seq<string>, baseCurrency: string,
                       customMap: map<string, string>, response: ProviderResponse)
    : (out: (Option<ProviderRequest>, map<string, real>))
    ensures out.0.None? <==> ProviderIds(IdMap(customMap), assetIds) == []
    ensures (out.0.None? || response.Unavailable?) ==> out.1 == map[]
    ensures out.1.Keys <= set a | a in assetIds
  {
    var idMap := IdMap(customMap);
    var gids := ProviderIds(idMap, assetIds);
    if gids == [] then (None, map[])
    else
      var vs := Vs(baseCurrency);
      var request := Some(ProviderRequest(gids, vs));
      match response
      case Unavailable => (request, map[])
      case Body(data) => (request, Collect(data, idMap, assetIds, vs))
  }

  /** `fetchPrices` yields exactly the price half of `fetchPricesAndChange`,
      for the same inputs (its request only omits the 24h-change flag). */
  lemma FetchPricesIsPriceHalf(assetIds: seq<string>, baseCurrency: string,
                               customMap: map<string, string>, response: ProviderResponse)
    ensures FetchPrices(assetIds, baseCurrency, customMap, response).1
         == FetchPricesAndChange(assetIds, baseCurrency, customMap, response).1.prices
  {
  }
}
