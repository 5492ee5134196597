/**
 * The Jasmin gateway client: one form-encoded POST to `{base URL}/send` per
 * message, and the classification of the gateway's reply into a delivery or
 * an error. The HTTP exchange itself is an input: the reply is given as the
 * transport status, the body text and what JSON.parse makes of that text.
 */
module JasminClient {
  import opened Wrappers
  import opened JsonValue
  import Decimal

  /** Used when the build-time setting is absent or empty. */
  const BuiltInBaseUrl := "http://localhost:1401"
  const SendPath := "/send"
  const FormContentType := "application/x-www-form-urlencoded"
  const CredentialsError := "Username and password are required"
  const GatewayError := "Jasmin returned an error"

  /** The arguments of one sendSms call. */
  datatype SendParams = SendParams(
    baseUrl: string, username: string, password: string, from: string,
    to: string, content: string, dlr: nat, coding: string)

  datatype HttpRequest = HttpRequest(
    httpMethod: string, url: string, contentType: string, body: seq<(string, string)>)

  /** `json` is the value JSON.parse(raw) returns, or None when it throws. */
  datatype HttpResponse = HttpResponse(ok: bool, raw: string, json: Option<Json>)

  /** What `fetch` does with a request: a response, or a rejection (network
      failure, refused connection) with the message of the error it throws. */
  datatype Exchange = Answered(response: HttpResponse) | Rejected(reason: string)

  /** The network, as seen by sendSms. */
  type Network = HttpRequest -> Exchange

  /** The value sendSms resolves with; `messageId` is None when undefined. */
  datatype Delivery = Delivery(raw: string, payload: Json, messageId: Option<Json>)

  /** A delivery, or the message of the error sendSms throws. */
  type SendResult = Result<Delivery, Json>

  /** DEFAULT_BASE_URL, from the build-time setting `configured`. */
  function DefaultBaseUrl(configured: string): (r: string)
    ensures r != []
    ensures configured != [] ==> r == configured
    ensures configured == [] ==> r == BuiltInBaseUrl
  {
    if configured != [] then configured else BuiltInBaseUrl
  }

  /** `s.replace(/\/+$/, '')`: drops the maximal run of slashes at the end. */
  function StripTrailingSlashes(s: string): (r: string)
    ensures r <= s
    ensures forall k :: |r| <= k < |s| ==> s[k] == '/'
    ensures r == [] || r[|r| - 1] != '/'
  {
    if |s| > 0 && s[|s| - 1] == '/' then StripTrailingSlashes(s[..|s| - 1]) else s
  }

  /** normalizeBaseUrl(value): the default for an empty value, without
      trailing slashes. */
  function NormalizeBaseUrl(value: string, configured: string): (r: string)
    ensures var base := if value != [] then value else DefaultBaseUrl(configured);
      && r <= base
      && (forall k :: |r| <= k < |base| ==> base[k] == '/')
      && (r == [] || r[|r| - 1] != '/')
  {
    StripTrailingSlashes(if value != [] then value else DefaultBaseUrl(configured))
  }

  /** tryParseJson(raw): the parsed value, or null when parsing throws. */
  function TryParseJson(parsed: Option<Json>): (r: Json)
    ensures parsed.Some? ==> r == parsed.value
    ensures parsed.None? ==> r == JNull
  {
    if parsed.Some? then parsed.value else JNull
  }

  /** String(dlr) */
  function DlrText(dlr: nat): (t: string)
    ensures |t| >= 1 && Decimal.AllDigits(t) && Decimal.DigitsValue(t) == dlr
    ensures t[0] == '0' ==> dlr == 0
  {
    Decimal.DigitsValueOfNatToString(dlr);
    Decimal.NatToString(dlr)
  }

  /** The two values the console sends: `String(0)` and `String(1)`. */
  lemma DlrFlags()
    ensures DlrText(0) == "0" && DlrText(1) == "1"
  {
  }

  /** The form fields in the order sendSms appends them. */
  function FormFields(p: SendParams): seq<(string, string)>
  {
    [("username", p.username), ("password", p.password), ("to", p.to),
     ("content", p.content), ("dlr", DlrText(p.dlr)), ("coding", p.coding)]
    + (if p.from != [] then [("from", p.from)] else [])
  }

  /** The request sendSms issues for `p`. */
  function Request(p: SendParams, configured: string): HttpRequest
  {
    HttpRequest("POST", NormalizeBaseUrl(p.baseUrl, configured) + SendPath, FormContentType, FormFields(p))
  }

  /** `parsed?.status ?? parsed?.code` */
  function StatusCode(parsed: Json): Option<Json>
  {
    Coalesce(Member(parsed, "status"), Member(parsed, "code"))
  }

  /** `typeof statusCode === 'number' && statusCode !== 0` */
  predicate IsErrorStatus(statusCode: Option<Json>)
  {
    statusCode.Some? && statusCode.value.JNum? && statusCode.value.x != 0.0
  }

  /** The message of the error thrown for a failed reply. */
  function ErrorMessage(parsed: Json, raw: string): (m: Json)
    ensures Truthy(Some(m))
  {
    Or(Or(Or(Or(Or(Member(parsed, "reason"), Member(parsed, "error")),
      Member(parsed, "description")), Member(parsed, "message")),
      Some(JStr(raw))), Some(JStr(GatewayError))).value
  }

  /** `parsed?.['message_id'] || parsed?.['message-id']` */
  function MessageId(parsed: Json): (r: Option<Json>)
    ensures Truthy(Member(parsed, "message_id")) ==> r == Member(parsed, "message_id")
    ensures !Truthy(Member(parsed, "message_id")) ==> r == Member(parsed, "message-id")
  {
    Or(Member(parsed, "message_id"), Member(parsed, "message-id"))
  }

  /** What sendSms makes of the gateway's reply. */
  function InterpretResponse(response: HttpResponse): (r: SendResult)
    ensures var parsed := TryParseJson(response.json);
      r.Failure? <==> !response.ok || IsErrorStatus(StatusCode(parsed))
    ensures r.Failure? ==> Truthy(Some(r.error))
    ensures r.Failure? ==> r.error == ErrorMessage(TryParseJson(response.json), response.raw)
    ensures r.Success? ==> r.value.raw == response.raw
    ensures r.Success? ==> r.value.payload == TryParseJson(response.json)
    ensures r.Success? ==> r.value.messageId == MessageId(r.value.payload)
  {
    var parsed := TryParseJson(response.json);
    if !response.ok || IsErrorStatus(StatusCode(parsed)) then
      Failure(ErrorMessage(parsed, response.raw))
    else
      Success(Delivery(response.raw, parsed, MessageId(parsed)))
  }

  /** What sendSms(p) resolves or rejects with when the network answers the
      request with `fetch(request)`; a rejected fetch propagates its error. */
  function SendOutcome(p: SendParams, configured: string, fetch: Network): SendResult
  {
    if p.username == [] || p.password == [] then Failure(JStr(CredentialsError))
    else
      match fetch(Request(p, configured))
      case Rejected(reason) => Failure(JStr(reason))
      case Answered(response) => InterpretResponse(response)
  }

  /** The request sendSms issues for `p`: none when the credentials are
      missing, otherwise exactly one. */
  function IssuedRequest(p: SendParams, configured: string): (req: Option<HttpRequest>)
    ensures req.None? <==> p.username == [] || p.password == []
    ensures req.Some? ==> req.value == Request(p, configured)
  {
    if p.username == [] || p.password == [] then None else Some(Request(p, configured))
  }

  /** URLSearchParams, as far as sendSms uses it: an ordered list of pairs. */
  class SearchParams {
    var entries: seq<(string, string)>

    constructor ()
      ensures entries == []
    {
      entries := [];
    }

    method Append(name: string, value: string)
      modifies this
      ensures entries == old(entries) + [(name, value)]
    {
      entries := entries + [(name, value)];
    }
  }

  /** sendSms: checks the credentials, builds the form body pair by pair,
      posts it, and classifies the reply. */
  method SendSms(p: SendParams, configured: string, fetch: Network)
    returns (r: SendResult, sent: Option<HttpRequest>)
    ensures r == SendOutcome(p, configured, fetch)
    ensures sent == IssuedRequest(p, configured)
  {
    if p.username == [] || p.password == [] {
      return Failure(JStr(CredentialsError)), None;
    }
    var params := new SearchParams();
    params.Append("username", p.username);
    params.Append("password", p.password);
    params.Append("to", p.to);
    params.Append("content", p.content);
    params.Append("dlr", DlrText(p.dlr));
    params.Append("coding", p.coding);
    if p.from != [] {
      params.Append("from", p.from);
    }
    assert params.entries == FormFields(p);
    var url := NormalizeBaseUrl(p.baseUrl, configured) + SendPath;
    sent := Some(HttpRequest("POST", url, FormContentType, params.entries));
    var reply := fetch(sent.value);
    if reply.Rejected? {
      return Failure(JStr(reply.reason)), sent;
    }
    var response := reply.response;
    var parsed := TryParseJson(response.json);
    var isErrorStatus := IsErrorStatus(StatusCode(parsed));
    if !response.ok || isErrorStatus {
      r := Failure(ErrorMessage(parsed, response.raw));
    } else {
      r := Success(Delivery(response.raw, parsed, MessageId(parsed)));
    }
  }

  /** The three facts StripTrailingSlashes states determine its result: it
      removes exactly the maximal run of trailing slashes. */
  lemma {:induction false} StripTrailingSlashesUnique(s: string, r: string)
    requires r <= s
    requires forall k :: |r| <= k < |s| ==> s[k] == '/'
    requires r == [] || r[|r| - 1] != '/'
    ensures StripTrailingSlashes(s) == r
    decreases |s|
  {
    if |s| > |r| {
      assert s[|s| - 1] == '/';
      assert r <= s[..|s| - 1];
      StripTrailingSlashesUnique(s[..|s| - 1], r);
    } else {
      assert s == r;
    }
  }

  /** A non-empty normalized base URL is its own normal form. */
  lemma NormalizeBaseUrlIdempotent(value: string, configured: string)
    requires NormalizeBaseUrl(value, configured) != []
    ensures var r := NormalizeBaseUrl(value, configured);
      NormalizeBaseUrl(r, configured) == r
  {
    var r := NormalizeBaseUrl(value, configured);
    StripTrailingSlashesUnique(r, r);
  }

  /** An empty base URL means the default one. */
  lemma NormalizeEmptyBaseUrl(configured: string)
    ensures NormalizeBaseUrl([], configured) == NormalizeBaseUrl(DefaultBaseUrl(configured), configured)
  {
  }

  /** The request is a form POST to the normalized base URL followed by
      "/send", so there is never a doubled slash before "send". */
  lemma RequestTargetsSendEndpoint(p: SendParams, configured: string)
    ensures var req := Request(p, configured);
      var base := NormalizeBaseUrl(p.baseUrl, configured);
      && req.httpMethod == "POST"
      && req.contentType == FormContentType
      && |req.url| == |base| + 5
      && req.url[..|base|] == base
      && req.url[|base|..] == "/send"
      && (base != [] ==> req.url[|base| - 1] != '/')
  {
  }

  /** URLSearchParams.get: the value of the first pair named `name`. */
  function Get(pairs: seq<(string, string)>, name: string): Option<string>
  {
    if pairs == [] then None
    else if pairs[0].0 == name then Some(pairs[0].1)
    else Get(pairs[1..], name)
  }

  /** Pairs whose names differ from `name` do not affect the lookup. */
  lemma {:induction false} GetAfter(pairs: seq<(string, string)>, n: nat, name: string)
    requires n <= |pairs|
    requires forall k :: 0 <= k < n ==> pairs[k].0 != name
    ensures Get(pairs, name) == Get(pairs[n..], name)
  {
    if n > 0 {
      assert pairs[1..][n - 1..] == pairs[n..];
      GetAfter(pairs[1..], n - 1, name);
    }
  }

  /** The names of the pairs, in order. */
  function Names(pairs: seq<(string, string)>): (r: seq<string>)
    ensures |r| == |pairs|
    ensures forall k :: 0 <= k < |r| ==> r[k] == pairs[k].0
  {
    seq(|pairs|, k requires 0 <= k < |pairs| => pairs[k].0)
  }

  /** The body names username, password, to, content, dlr and coding in that
      order, then from when and only when a sender is set, and the gateway
      reads back every argument from it. */
  lemma FormFieldsReadBack(p: SendParams)
    ensures Names(FormFields(p)) ==
      ["username", "password", "to", "content", "dlr", "coding"] + (if p.from != [] then ["from"] else [])
    ensures Get(FormFields(p), "username") == Some(p.username)
    ensures Get(FormFields(p), "password") == Some(p.password)
    ensures Get(FormFields(p), "to") == Some(p.to)
    ensures Get(FormFields(p), "content") == Some(p.content)
    ensures Get(FormFields(p), "coding") == Some(p.coding)
    ensures Get(FormFields(p), "from") == if p.from != [] then Some(p.from) else None
    ensures Get(FormFields(p), "dlr") == Some(DlrText(p.dlr))
  {
    var f := FormFields(p);
    var names := ["username", "password", "to", "content", "dlr", "coding"];
    assert Names(f)[..6] == names;
    GetAfter(f, 2, "to");
    GetAfter(f, 3, "content");
    GetAfter(f, 4, "dlr");
    GetAfter(f, 5, "coding");
    GetAfter(f, 6, "from");
    assert f[6..] == if p.from != [] then [("from", p.from)] else [];
    Decimal.DigitsValueOfNatToString(p.dlr);
  }

  /** Missing credentials are rejected before any request is built: the
      outcome is the same whatever the network would answer. */
  lemma CredentialsCheckedFirst(p: SendParams, configured: string, fetch: Network)
    requires p.username == [] || p.password == []
    ensures SendOutcome(p, configured, fetch) == Failure(JStr(CredentialsError))
  {
  }

  /** With credentials present, exactly one request is made and its reply
      alone decides the outcome. */
  lemma OneRequestPerSend(p: SendParams, configured: string, f: Network, g: Network)
    requires p.username != [] && p.password != []
    requires f(Request(p, configured)) == g(Request(p, configured))
    ensures SendOutcome(p, configured, f) == SendOutcome(p, configured, g)
  {
  }

  /** `status` decides when it is present (not null or undefined), even when
      it is not a number; `code` is consulted only when it is absent. */
  lemma StatusCodeRules(parsed: Json)
    ensures var status, code := Member(parsed, "status"), Member(parsed, "code");
      && (status.Some? && status.value.JNum? ==> (IsErrorStatus(StatusCode(parsed)) <==> status.value.x != 0.0))
      && (status.Some? && !status.value.JNum? && status.value != JNull ==> !IsErrorStatus(StatusCode(parsed)))
      && (Nullish(status) ==> (IsErrorStatus(StatusCode(parsed)) <==> IsErrorStatus(code)))
  {
  }

  /** The error message is the first truthy of reason, error, description,
      message and the raw body, else the fixed text. */
  lemma {:induction false} ErrorMessageIsFirstTruthy(parsed: Json, raw: string)
    ensures var candidates := [Member(parsed, "reason"), Member(parsed, "error"),
        Member(parsed, "description"), Member(parsed, "message"), Some(JStr(raw))];
      var i := FirstTruthy(candidates);
      ErrorMessage(parsed, raw) == if i < |candidates| then candidates[i].value else JStr(GatewayError)
  {
    var candidates := [Member(parsed, "reason"), Member(parsed, "error"),
      Member(parsed, "description"), Member(parsed, "message"), Some(JStr(raw))];
    var fallback := Some(JStr(GatewayError));
    OrChainIsFirstTruthy(candidates, fallback);
    assert candidates[1..][1..][1..][1..][1..] == [];
    assert OrChain(candidates, fallback) ==
      Or(candidates[0], Or(candidates[1], Or(candidates[2], Or(candidates[3], Or(candidates[4], fallback)))));
  }

  /** A reply that is not JSON succeeds exactly when the transport does; the
      body text is the error message, unless it is empty. */
  lemma PlainTextReply(ok: bool, raw: string)
    ensures var r := InterpretResponse(HttpResponse(ok, raw, None));
      && (r.Success? <==> ok)
      && (r.Success? ==> r.value == Delivery(raw, JNull, None))
      && (r.Failure? ==> r.error == if raw != [] then JStr(raw) else JStr(GatewayError))
  {
  }

  /** `{"status": 1, "reason": "bad destination"}` with HTTP 200 fails with
      the reason as message. */
  lemma ExampleGatewayRejects(raw: string)
    ensures var body := JObject(map["status" := JNum(1.0), "reason" := JStr("bad destination")]);
      InterpretResponse(HttpResponse(true, raw, Some(body))) == Failure(JStr("bad destination"))
  {
  }

  /** `{"status": 0, "message_id": "abc123"}` succeeds with that identifier. */
  lemma ExampleGatewayAccepts(raw: string)
    ensures var body := JObject(map["status" := JNum(0.0), "message_id" := JStr("abc123")]);
      InterpretResponse(HttpResponse(true, raw, Some(body))) == Success(Delivery(raw, body, Some(JStr("abc123"))))
  {
  }
}
