/** The request helpers of src/helpers/api.ts: how each endpoint's path,
    query and body are built, and which error message a failed call carries.
    The HTTP exchange itself is an input (`Response`). */
module Api {
  import opened Wrappers
  import opened Text
  import opened UriEncoding

  /** The JSON values request bodies are made of. */
  datatype Json = JNull | JBool(b: bool) | JStr(s: string) | JObj(fields: seq<(string, Json)>)

  /** JavaScript truthiness of a body argument. */
  predicate Truthy(j: Json) {
    match j
    case JNull => false
    case JBool(b) => b
    case JStr(s) => s != ""
    case JObj(_) => true
  }

  datatype Method = GET | POST

  datatype Request = Request(verb: Method, path: string, body: Option<Json>)

  /** What the server answered, as far as the helpers look at it. On a non-ok
      answer the body is either unreadable JSON or an object whose `message`
      and `error` fields are given ("" when absent or falsy). */
  datatype ErrorBody = Unreadable | ErrorJson(message: string, error: string)

  datatype Response<T> =
    | Ok(payload: T)
    | NotOk(status: nat, errorBody: ErrorBody)
    | TransportError(message: string)

  /** The object `{ key: value }` for each present optional field, in order
      (JSON.stringify drops fields whose value is undefined). */
  function OptFields(fields: seq<(string, Option<Json>)>): (r: seq<(string, Json)>)
    ensures |r| <= |fields|
    ensures forall p :: p in r <==> (p.0, Some(p.1)) in fields
    ensures (forall i :: 0 <= i < |fields| ==> fields[i].1.Some?) ==>
      |r| == |fields| && forall i :: 0 <= i < |fields| ==> r[i] == (fields[i].0, fields[i].1.value)
    ensures (forall i :: 0 <= i < |fields| ==> fields[i].1.None?) ==> r == []
  {
    if |fields| == 0 then []
    else
      var rest := OptFields(fields[1..]);
      assert forall f :: f in fields <==> f == fields[0] || f in fields[1..];
      if fields[0].1.Some? then [(fields[0].0, fields[0].1.value)] + rest else rest
  }

  function StrField(v: Option<string>): Option<Json> {
    if v.Some? then Some(JStr(v.value)) else None
  }

  /** A string field that is sent only when truthy (`x ? { x } : {}`). */
  function IfTruthy(s: string): Option<Json> {
    if s != "" then Some(JStr(s)) else None
  }

  // ---- apiGet / apiPost ----------------------------------------------------

  function GetErrorMessage(path: string, status: nat): string {
    "GET " + path + " " + NatToString(status)
  }

  function PostErrorMessage(path: string, status: nat, body: ErrorBody): string {
    match body
    case ErrorJson(message, error) =>
      if message != "" then message
      else if error != "" then error
      else "POST " + path + " " + NatToString(status)
    case Unreadable => "POST " + path + " " + NatToString(status)
  }

  /** `apiGet`: the payload on success; on a non-ok status the error text is
      always "GET <path> <status>" and the body is never read; a transport
      failure propagates its own message. */
  function ApiGet<T>(path: string, resp: Response<T>): (out: (Request, Result<T, string>))
    ensures out.0 == Request(GET, path, None)
    ensures resp.Ok? <==> out.1.Success?
    ensures resp.Ok? ==> out.1.value == resp.payload
    ensures resp.NotOk? ==> out.1.error == "GET " + path + " " + NatToString(resp.status)
    ensures resp.TransportError? ==> out.1.error == resp.message
  {
    var req := Request(GET, path, None);
    match resp
    case Ok(p) => (req, Success(p))
    case NotOk(status, _) => (req, Failure(GetErrorMessage(path, status)))
    case TransportError(m) => (req, Failure(m))
  }

  /** `apiPost`: a JSON body only when the argument is truthy; on a non-ok
      status the server's `message`, else its `error`, else
      "POST <path> <status>" (also when the body cannot be parsed). */
  function ApiPost<T>(path: string, body: Option<Json>, resp: Response<T>): (out: (Request, Result<T, string>))
    ensures out.0.verb == POST && out.0.path == path
    ensures out.0.body.Some? <==> body.Some? && Truthy(body.value)
    ensures out.0.body.Some? ==> out.0.body == body
    ensures resp.Ok? <==> out.1.Success?
    ensures resp.Ok? ==> out.1.value == resp.payload
    ensures resp.NotOk? && resp.errorBody.ErrorJson? && resp.errorBody.message != ""
      ==> out.1.error == resp.errorBody.message
    ensures resp.NotOk? && resp.errorBody.ErrorJson? && resp.errorBody.message == "" && resp.errorBody.error != ""
      ==> out.1.error == resp.errorBody.error
    ensures resp.NotOk? && (resp.errorBody.Unreadable? || (resp.errorBody.message == "" && resp.errorBody.error == ""))
      ==> out.1.error == "POST " + path + " " + NatToString(resp.status)
    ensures resp.TransportError? ==> out.1.error == resp.message
  {
    var sent := if body.Some? && Truthy(body.value) then body else None;
    var req := Request(POST, path, sent);
    match resp
    case Ok(p) => (req, Success(p))
    case NotOk(status, eb) => (req, Failure(PostErrorMessage(path, status, eb)))
    case TransportError(m) => (req, Failure(m))
  }

  /** apiGet's error text depends on the status only, never on the body. */
  lemma GetErrorIgnoresBody<T>(path: string, status: nat, b1: ErrorBody, b2: ErrorBody)
    ensures ApiGet<T>(path, NotOk(status, b1)) == ApiGet<T>(path, NotOk(status, b2))
  {
  }

  // ---- endpoints -----------------------------------------------------------

  const Prefix := "/api/v1"

  function RegisterRequest(): Request {
    Request(POST, Prefix + "/telegram/register", Some(JObj([])))
  }

  const WalletsBase := "/api/v1/telegram/wallets"
  const TransactionsBase := "/api/v1/transactions"
  const KeyringsBase := "/api/v1/keyrings"

  /** `api.wallets({ keyringId })`: a query only for a truthy id. */
  function WalletsPath(keyringId: string): string {
    if keyringId != "" then WithParam(WalletsBase, "keyringId", EncodeUriComponent(keyringId)) else WalletsBase
  }

  /** `base?key=value`. */
  function WithParam(base: string, key: string, value: string): string {
    base + "?" + key + "=" + value
  }

  /** Whatever the id contains, it ends up as the value of the one query
      parameter `keyringId` of the wallets path, and without an id there is
      no query at all. */
  lemma WalletsPathQuery(keyringId: string)
    ensures keyringId == "" ==> Split(WalletsPath(keyringId), '?') == [WalletsBase]
    ensures keyringId != "" ==>
      var e := EncodeUriComponent(keyringId);
      && Split(WalletsPath(keyringId), '?') == [WalletsBase, "keyringId" + "=" + e]
      && Split("keyringId" + "=" + e, '&') == ["keyringId" + "=" + e]
      && Split("keyringId" + "=" + e, '=') == ["keyringId", e]
  {
    if keyringId == "" {
      SplitNoSep(WalletsBase, '?');
    } else {
      var e := EncodeUriComponent(keyringId);
      EncodingsHaveNoDelimiters(keyringId);
      QueryParamShape(WalletsBase, "keyringId", e);
    }
  }

  /** `base?key=value` with delimiter-free parts splits back into its parts. */
  lemma QueryParamShape(base: string, key: string, value: string)
    requires '?' !in base
    requires forall c :: c in "?&=" ==> c !in key && c !in value
    ensures var q := key + "=" + value;
      && Split(WithParam(base, key, value), '?') == [base, q]
      && Split(q, '&') == [q]
      && Split(q, '=') == [key, value]
  {
    var q := key + "=" + value;
    assert '?' !in q && '&' !in q;
    SplitTwo(base, '?', q);
    assert WithParam(base, key, value) == base + ['?'] + q;
    SplitNoSep(q, '&');
    SplitTwo(key, '=', value);
  }

  /** The `URLSearchParams` built by `api.transactions`: only the truthy
      parameters, in the order address, chain, keyringId. */
  function TransactionsParams(address: string, chain: string, keyringId: string): (ps: seq<(string, string)>)
    ensures forall i :: 0 <= i < |ps| ==> ps[i].1 != ""
    ensures |ps| == (if address != "" then 1 else 0) + (if chain != "" then 1 else 0) + (if keyringId != "" then 1 else 0)
    ensures (address != "" ==> ps[0] == ("address", address))
    ensures (keyringId != "" ==> ps[|ps| - 1] == ("keyringId", keyringId))
    ensures chain != "" ==> ps[if address != "" then 1 else 0] == ("chain", chain)
  {
    (if address != "" then [("address", address)] else [])
    + (if chain != "" then [("chain", chain)] else [])
    + (if keyringId != "" then [("keyringId", keyringId)] else [])
  }

  /** `key=value` pieces of a serialised `URLSearchParams`. */
  function QueryPairs(ps: seq<(string, string)>): (parts: seq<string>)
    ensures |parts| == |ps|
    ensures forall i :: 0 <= i < |ps| ==> parts[i] == FormEncode(ps[i].0) + "=" + FormEncode(ps[i].1)
  {
    if |ps| == 0 then [] else [FormEncode(ps[0].0) + "=" + FormEncode(ps[0].1)] + QueryPairs(ps[1..])
  }

  /** `api.transactions(params)`: a query only when some parameter is truthy. */
  function TransactionsPath(address: string, chain: string, keyringId: string): string {
    var ps := TransactionsParams(address, chain, keyringId);
    if |ps| == 0 then TransactionsBase
    else TransactionsBase + "?" + Join(QueryPairs(ps), "&")
  }

  /** The query of the transactions path splits back into exactly the
      truthy parameters, each as one encoded `key=value` pair. */
  lemma TransactionsPathQuery(address: string, chain: string, keyringId: string)
    ensures var ps := TransactionsParams(address, chain, keyringId);
      && (|ps| == 0 ==> Split(TransactionsPath(address, chain, keyringId), '?') == [TransactionsBase])
      && (|ps| > 0 ==>
            var q := Join(QueryPairs(ps), "&");
            && Split(TransactionsPath(address, chain, keyringId), '?') == [TransactionsBase, q]
            && Split(q, '&') == QueryPairs(ps))
  {
    var ps := TransactionsParams(address, chain, keyringId);
    var pairs := QueryPairs(ps);
    if |ps| == 0 {
      SplitNoSep(TransactionsBase, '?');
    } else {
      forall i | 0 <= i < |ps|
        ensures '?' !in pairs[i] && '&' !in pairs[i]
      {
        QueryPairSplit(ps[i].0, ps[i].1);
      }
      var q := Join(pairs, "&");
      JoinAvoids(pairs, "&", '?');
      SplitTwo(TransactionsBase, '?', q);
      SplitJoin(pairs, '&');
    }
  }

  /** One encoded pair splits on '=' into its encoded key and value and
      holds no '?' or '&'. */
  lemma QueryPairSplit(key: string, value: string)
    ensures var pair := FormEncode(key) + "=" + FormEncode(value);
      && '?' !in pair && '&' !in pair
      && Split(pair, '=') == [FormEncode(key), FormEncode(value)]
  {
    EncodingsHaveNoDelimiters(key);
    EncodingsHaveNoDelimiters(value);
    SplitTwo(FormEncode(key), '=', FormEncode(value));
  }

  /** `api.transfer(payload)`. */
  function TransferRequest(chain: string, toAddress: string, amount: string,
                           passcode: Option<string>, keyringId: Option<string>): Request {
    Request(POST, Prefix + "/transactions/transfer", Some(JObj(
      [("chain", JStr(chain)), ("toAddress", JStr(toAddress)), ("amount", JStr(amount))]
      + OptFields([("passcode", StrField(passcode)), ("keyringId", StrField(keyringId))]))))
  }

  function PreferencesRequest(): Request {
    Request(GET, Prefix + "/telegram/preferences", None)
  }

  function UpdatePreferencesRequest(payload: Json): Request {
    Request(POST, Prefix + "/telegram/preferences", Some(payload))
  }

  /** The body of both export calls: `{ passcode }` only for a truthy passcode. */
  function PasscodeBody(passcode: string): Json {
    if passcode != "" then JObj([("passcode", JStr(passcode))]) else JObj([])
  }

  function ExportSeedRequest(passcode: string): Request {
    Request(POST, Prefix + "/user-seed/export", Some(PasscodeBody(passcode)))
  }

  function ImportSeedRequest(mnemonic: string): Request {
    Request(POST, Prefix + "/user-seed/import", Some(JObj([("mnemonic", JStr(mnemonic))])))
  }

  function CreateSeedRequest(): Request {
    Request(POST, Prefix + "/user-seed/create", Some(JObj([])))
  }

  function ListKeyringsRequest(): Request {
    Request(GET, Prefix + "/keyrings", None)
  }

  function CreateKeyringRequest(name: string): Request {
    Request(POST, Prefix + "/keyrings/create", Some(JObj([("label", JStr(name))])))
  }

  function ImportKeyringRequest(name: string, mnemonic: string): Request {
    Request(POST, Prefix + "/keyrings/import", Some(JObj([("label", JStr(name)), ("mnemonic", JStr(mnemonic))])))
  }

  function RenameKeyringRequest(id: string, name: string): Request {
    Request(POST, KeyringsBase + "/" + EncodeUriComponent(id), Some(JObj([("label", JStr(name))])))
  }

  function ExportKeyringRequest(id: string, passcode: string): Request {
    Request(POST, KeyringsBase + "/" + EncodeUriComponent(id) + "/" + "export", Some(PasscodeBody(passcode)))
  }

  /** Both export calls send the passcode field exactly when the passcode
      is truthy, and otherwise an empty object; the two bodies agree. */
  lemma ExportBodiesCarryPasscode(id: string, passcode: string)
    ensures ExportSeedRequest(passcode).body == ExportKeyringRequest(id, passcode).body
    ensures var b := ExportSeedRequest(passcode).body.value;
      && b.JObj? && |b.fields| <= 1
      && (|b.fields| == 1 <==> passcode != "")
      && (passcode != "" ==> b.fields[0] == ("passcode", JStr(passcode)))
  {
  }

  /** The keyring id adds exactly one segment to the keyrings path (and
      the export path one more), whatever characters the id contains. */
  lemma KeyringPathSegments(id: string, name: string, passcode: string)
    ensures var e := EncodeUriComponent(id);
      && Split(RenameKeyringRequest(id, name).path, '/') == Split(KeyringsBase, '/') + [e]
      && Split(ExportKeyringRequest(id, passcode).path, '/') == Split(KeyringsBase, '/') + [e, "export"]
  {
    var e := EncodeUriComponent(id);
    EncodingsHaveNoDelimiters(id);
    TwoMoreSegments(KeyringsBase, e, "export");
    assert RenameKeyringRequest(id, name).path == KeyringsBase + ['/'] + e;
    assert ExportKeyringRequest(id, passcode).path == KeyringsBase + ['/'] + e + ['/'] + "export";
  }

  lemma TwoMoreSegments(base: string, x: string, y: string)
    requires '/' !in x && '/' !in y
    ensures Split(base + ['/'] + x, '/') == Split(base, '/') + [x]
    ensures Split(base + ['/'] + x + ['/'] + y, '/') == Split(base, '/') + [x, y]
  {
    SplitAppendPiece(base, '/', x);
    SplitAppendPiece(base + ['/'] + x, '/', y);
  }

  const XrpInfoBase := "/api/v1/public/xrp-info"

  /** `publicApi.xrpInfo(address)`. */
  function XrpInfoPath(address: string): string {
    if address != "" then WithParam(XrpInfoBase, "address", EncodeUriComponent(address)) else XrpInfoBase
  }

  /** The xrp-info path has a query exactly when an address is given, and
      the query is the one `address` parameter holding the whole encoded
      address. */
  lemma XrpInfoPathQuery(address: string)
    ensures address == "" ==> Split(XrpInfoPath(address), '?') == [XrpInfoBase]
    ensures address != "" ==>
      var e := EncodeUriComponent(address);
      && Split(XrpInfoPath(address), '?') == [XrpInfoBase, "address" + "=" + e]
      && Split("address" + "=" + e, '=') == ["address", e]
  {
    if address == "" {
      SplitNoSep(XrpInfoBase, '?');
    } else {
      EncodingsHaveNoDelimiters(address);
      QueryParamShape(XrpInfoBase, "address", EncodeUriComponent(address));
    }
  }
}
