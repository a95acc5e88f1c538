/**
 * The signed SwitchBot cloud API client (SwitchBot API v1.1): the base URL,
 * the endpoint of each operation, the authentication headers, the request it
 * hands to `fetch`, and how it turns the HTTP response into the
 * `{statusCode, message, body}` envelope.
 *
 * The clock (`Date.now()`), the random source (`Math.random().toString(36)`),
 * HMAC-SHA256 with base64 and `fetch` itself are inputs: a millisecond count,
 * the base-36 string, a signing function and a function from request to
 * outcome.
 */
module SwitchBotApi {

  import opened Wrappers
  import opened Text
  import opened JsValues

  datatype SwitchBotConfig = SwitchBotConfig(token: string, secret: string, baseUrl: Option<string>)

  /** A physical device as listed by `GET /v1.1/devices`. */
  datatype SwitchBotDevice = SwitchBotDevice(
    deviceId: string,
    deviceName: string,
    deviceType: string,
    enableCloudService: bool,
    hubDeviceId: Option<string>)

  /** A virtual infrared remote as listed by `GET /v1.1/devices`. */
  datatype SwitchBotInfraredDevice = SwitchBotInfraredDevice(
    deviceId: string,
    deviceName: string,
    remoteType: string,
    hubDeviceId: string)

  /** Either kind of listed device (`SwitchBotDevice | SwitchBotInfraredDevice`). */
  datatype VendorDevice = Physical(device: SwitchBotDevice) | Infrared(remote: SwitchBotInfraredDevice)
  {
    function DeviceId(): string
    {
      match this
      case Physical(d) => d.deviceId
      case Infrared(r) => r.deviceId
    }
  }

  /** A device list read as `SwitchBotDevice | SwitchBotInfraredDevice` values. */
  function AsPhysical(list: seq<SwitchBotDevice>): (r: seq<VendorDevice>)
    ensures |r| == |list| && forall i :: 0 <= i < |list| ==> r[i] == Physical(list[i])
  {
    seq(|list|, i requires 0 <= i < |list| => Physical(list[i]))
  }

  function AsInfrared(list: seq<SwitchBotInfraredDevice>): (r: seq<VendorDevice>)
    ensures |r| == |list| && forall i :: 0 <= i < |list| ==> r[i] == Infrared(list[i])
  {
    seq(|list|, i requires 0 <= i < |list| => Infrared(list[i]))
  }

  /**
   * The body of the device list reply. A list that is absent (or not
   * iterable) is `None`: iterating over it raises a `TypeError`.
   */
  datatype DeviceListBody = DeviceListBody(
    deviceList: Option<seq<SwitchBotDevice>>,
    infraredRemoteList: Option<seq<SwitchBotInfraredDevice>>)

  /** Every listed device, physical first; the sequence discovery walks when both lists are present. */
  function Listed(body: DeviceListBody): seq<VendorDevice>
    requires body.deviceList.Some? && body.infraredRemoteList.Some?
  {
    AsPhysical(body.deviceList.value) + AsInfrared(body.infraredRemoteList.value)
  }

  datatype SwitchBotCommandRequest = SwitchBotCommandRequest(
    command: string,
    parameter: Option<string>,
    commandType: Option<string>)

  /** The normalised response; `statusCode` is whatever value survived the `||` fallback. */
  datatype Envelope<T> = Envelope(statusCode: JsValue, message: JsValue, body: T)

  datatype ApiError = RequestFailed(message: string)

  /** What a call of the client gives its caller: an envelope, or a thrown error. */
  datatype ApiReply<T> = Returned(envelope: Envelope<T>) | Threw(error: ApiError)

  /** The vendor's one success sentinel, compared with `=== 100`. */
  predicate IsSuccess<T>(reply: ApiReply<T>)
  {
    reply.Returned? && reply.envelope.statusCode == Num(100)
  }

  const DefaultBaseUrl: string := "https://api.switch-bot.com"

  /** A constructed `SwitchBotApi`: its configuration and the base URL it settled on. */
  datatype Client = Client(config: SwitchBotConfig, baseUrl: string)

  /** `config.baseUrl || 'https://api.switch-bot.com'`. */
  function BaseUrlOr(configured: Option<string>): (r: string)
    ensures r != []
    ensures configured.Some? && configured.value != [] ==> r == configured.value
    ensures configured.None? || configured.value == [] ==> r == DefaultBaseUrl
  {
    if configured.Some? && configured.value != [] then configured.value else DefaultBaseUrl
  }

  /** The `SwitchBotApi` constructor. */
  function NewClient(config: SwitchBotConfig): (c: Client)
    ensures c.config == config
    ensures c.baseUrl != []
    ensures config.baseUrl.Some? && config.baseUrl.value != [] ==> c.baseUrl == config.baseUrl.value
    ensures config.baseUrl.None? || config.baseUrl.value == [] ==> c.baseUrl == DefaultBaseUrl
  {
    Client(config, BaseUrlOr(config.baseUrl))
  }

  /** Applying the default twice, as the plugin and the client do, is the same as applying it once. */
  lemma BaseUrlDefaultTwice(configured: Option<string>)
    ensures BaseUrlOr(Some(BaseUrlOr(configured))) == BaseUrlOr(configured)
  {
  }

  /** `Math.random().toString(36).substring(2, 15)`: the digits after "0.", at most 13 of them. */
  function Nonce(random36: string): (r: string)
    ensures |r| <= 13
    ensures |random36| >= 15 ==> |r| == 13
    ensures |random36| >= 2 ==> r == random36[2..if |random36| < 15 then |random36| else 15]
  {
    Substring(random36, 2, 15)
  }

  /** A short base-36 rendering gives a short nonce: the code guarantees no minimum length. */
  lemma ShortNonce()
    ensures Nonce("0.i") == "i"
    ensures Nonce("0") == ""
  {
  }

  const HeaderNames: set<string> := {"Authorization", "Content-Type", "charset", "t", "sign", "nonce"}

  /**
   * `generateAuthHeaders`: `t` is the clock in decimal, the nonce comes
   * from the random string, and `sign` is the signature of `token + t + nonce`
   * under the secret.
   */
  function GenerateAuthHeaders(
    config: SwitchBotConfig, nowMs: nat, random36: string, hmac: (string, string) -> string): (h: map<string, string>)
    ensures h.Keys == HeaderNames
    ensures h["Authorization"] == config.token
    ensures h["Content-Type"] == "application/json" && h["charset"] == "utf8"
    ensures h["t"] == DecimalString(nowMs) && h["nonce"] == Nonce(random36)
    ensures h["sign"] == hmac(config.secret, h["Authorization"] + h["t"] + h["nonce"])
  {
    var t := DecimalString(nowMs);
    var nonce := Nonce(random36);
    var data := config.token + t + nonce;
    map[
      "Authorization" := config.token,
      "Content-Type" := "application/json",
      "charset" := "utf8",
      "t" := t,
      "sign" := hmac(config.secret, data),
      "nonce" := nonce
    ]
  }

  /** The `t` header identifies the clock reading that was signed: equal headers, equal readings. */
  lemma HeadersDetermineSignedInput(
    config: SwitchBotConfig, m: nat, n: nat, r1: string, r2: string, hmac: (string, string) -> string)
    requires GenerateAuthHeaders(config, m, r1, hmac)["t"] == GenerateAuthHeaders(config, n, r2, hmac)["t"]
    ensures m == n
  {
    DecimalInjective(m, n);
  }

  datatype HttpVerb = GET | POST

  /** What `fetch(url, options)` is given; `body` holds the value that `JSON.stringify` serialises. */
  datatype HttpRequest = HttpRequest(url: string, verb: HttpVerb, headers: map<string, string>, body: Option<JsValue>)

  /** The request-building half of `makeRequest`; `body` is `Undefined` when the caller passes none. */
  function BuildRequest(
    client: Client, verb: HttpVerb, endpoint: string, body: JsValue,
    nowMs: nat, random36: string, hmac: (string, string) -> string): (r: HttpRequest)
    ensures StartsWith(r.url, client.baseUrl) && r.url[|client.baseUrl|..] == endpoint
    ensures r.verb == verb
    ensures r.headers == GenerateAuthHeaders(client.config, nowMs, random36, hmac)
    ensures r.body.Some? <==> verb == POST && Truthy(body)
    ensures r.body.Some? ==> r.body.value == body
  {
    var url := client.baseUrl + endpoint;
    var headers := GenerateAuthHeaders(client.config, nowMs, random36, hmac);
    HttpRequest(url, verb, headers, if Truthy(body) && verb == POST then Some(body) else None)
  }

  datatype JsonOutcome = Parsed(data: JsValue) | Unparsable(cause: string)

  /** What `fetch` followed by `response.json()` produced. */
  datatype FetchOutcome =
    | NetworkFailure(cause: string)
    | HttpResponse(status: int, statusText: string, json: JsonOutcome)

  const RequestFailedPrefix: string := "SwitchBot API request failed: "

  function RequestFailure(cause: string): (e: ApiError)
    ensures StartsWith(e.message, RequestFailedPrefix)
  {
    var m := RequestFailedPrefix + cause;
    assert m[..|RequestFailedPrefix|] == RequestFailedPrefix;
    RequestFailed(m)
  }

  /** The `TypeError` V8 raises when reading a property of `null` or `undefined`. */
  function NullishReadError(data: JsValue, key: string): string
    requires Nullish(data)
  {
    "TypeError: Cannot read properties of " + (if data.Null? then "null" else "undefined") + " (reading '" + key + "')"
  }

  /**
   * The response-handling half of `makeRequest`: each envelope field falls back
   * when the vendor's value is falsy, and every failure on the way is rethrown
   * with the client's prefix.
   */
  function ReplyOf(fetched: FetchOutcome): (r: ApiReply<JsValue>)
    ensures r.Threw? <==> fetched.NetworkFailure? || fetched.json.Unparsable? || Nullish(fetched.json.data)
    ensures r.Threw? ==> StartsWith(r.error.message, RequestFailedPrefix)
    ensures r.Returned? ==>
      var data := fetched.json.data;
      && r.envelope.statusCode == (if Truthy(Property(data, "statusCode")) then Property(data, "statusCode") else Num(fetched.status))
      && r.envelope.message == (if Truthy(Property(data, "message")) then Property(data, "message") else Str(fetched.statusText))
      && r.envelope.body == (if Truthy(Property(data, "body")) then Property(data, "body") else data)
  {
    match fetched
    case NetworkFailure(cause) => Threw(RequestFailure(cause))
    case HttpResponse(status, statusText, json) =>
      match json
      case Unparsable(cause) => Threw(RequestFailure(cause))
      case Parsed(data) =>
        if Nullish(data) then Threw(RequestFailure(NullishReadError(data, "statusCode")))
        else Returned(Envelope(
          Or(Property(data, "statusCode"), Num(status)),
          Or(Property(data, "message"), Str(statusText)),
          Or(Property(data, "body"), data)))
  }

  /**
   * Success is the vendor's 100, or, when the vendor's code is falsy (absent
   * or 0), an HTTP status of 100.
   */
  lemma SuccessIff(status: int, statusText: string, data: JsValue)
    requires !Nullish(data)
    ensures IsSuccess(ReplyOf(HttpResponse(status, statusText, Parsed(data)))) <==>
      Property(data, "statusCode") == Num(100) || (!Truthy(Property(data, "statusCode")) && status == 100)
  {
  }

  /** A vendor code other than 100 is returned, never thrown. */
  lemma VendorFailureIsReturned(status: int, statusText: string, code: int, message: string)
    requires code != 100 && code != 0
    ensures var r := ReplyOf(HttpResponse(status, statusText, Parsed(Obj(map["statusCode" := Num(code), "message" := Str(message)]))));
      r.Returned? && !IsSuccess(r) && r.envelope.statusCode == Num(code)
  {
  }

  /** A vendor code of 0 or an empty message is falsy and is replaced by the HTTP status line. */
  lemma FalsyFieldsFallBack(status: int, statusText: string)
    ensures var r := ReplyOf(HttpResponse(status, statusText, Parsed(Obj(map["statusCode" := Num(0), "message" := Str("")]))));
      r.Returned? && r.envelope.statusCode == Num(status) && r.envelope.message == Str(statusText)
      && r.envelope.body == Obj(map["statusCode" := Num(0), "message" := Str("")])
  {
  }

  /** When the decoded JSON is an object or array the envelope body is always truthy. */
  lemma BodyTruthy(status: int, statusText: string, data: JsValue)
    requires data.Obj? || data.Arr?
    ensures Truthy(ReplyOf(HttpResponse(status, statusText, Parsed(data))).envelope.body)
  {
  }

  /** One call: the request handed to `fetch` and the reply built from its outcome. */
  datatype Exchange = Exchange(request: HttpRequest, reply: ApiReply<JsValue>)

  /** `makeRequest`: fresh headers from this call's clock and random string, then `fetch`. */
  function MakeRequest(
    client: Client, verb: HttpVerb, endpoint: string, body: JsValue,
    nowMs: nat, random36: string, hmac: (string, string) -> string,
    fetch: HttpRequest -> FetchOutcome): (x: Exchange)
    ensures x.request == BuildRequest(client, verb, endpoint, body, nowMs, random36, hmac)
    ensures x.reply == ReplyOf(fetch(x.request))
  {
    var request := BuildRequest(client, verb, endpoint, body, nowMs, random36, hmac);
    Exchange(request, ReplyOf(fetch(request)))
  }

  const DevicesEndpoint: string := "/v1.1/devices"
  const ScenesEndpoint: string := "/v1.1/scenes"

  function DeviceStatusEndpoint(deviceId: string): string
  {
    DevicesEndpoint + "/" + deviceId + "/status"
  }

  function DeviceCommandsEndpoint(deviceId: string): string
  {
    DevicesEndpoint + "/" + deviceId + "/commands"
  }

  function ExecuteSceneEndpoint(sceneId: string): string
  {
    ScenesEndpoint + "/" + sceneId + "/execute"
  }

  /** Different devices have different status endpoints. */
  lemma DeviceStatusEndpointInjective(a: string, b: string)
    requires DeviceStatusEndpoint(a) == DeviceStatusEndpoint(b)
    ensures a == b
  {
    var p := |DevicesEndpoint + "/"|;
    assert a == DeviceStatusEndpoint(a)[p..p + |a|];
    assert b == DeviceStatusEndpoint(b)[p..p + |b|];
  }

  /** Different devices have different command endpoints. */
  lemma DeviceCommandsEndpointInjective(a: string, b: string)
    requires DeviceCommandsEndpoint(a) == DeviceCommandsEndpoint(b)
    ensures a == b
  {
    var p := |DevicesEndpoint + "/"|;
    assert a == DeviceCommandsEndpoint(a)[p..p + |a|];
    assert b == DeviceCommandsEndpoint(b)[p..p + |b|];
  }

  /** No status endpoint is a command endpoint, whatever the two ids. */
  lemma StatusAndCommandsEndpointsDiffer(a: string, b: string)
    ensures DeviceStatusEndpoint(a) != DeviceCommandsEndpoint(b)
  {
    var s := DeviceStatusEndpoint(a);
    var c := DeviceCommandsEndpoint(b);
    assert s[|s| - 2] == 'u';
    assert c[|c| - 2] == 'd';
  }

  /** The JSON object `JSON.stringify` sees for a command; properties left `undefined` are omitted. */
  function CommandJson(req: SwitchBotCommandRequest): (v: JsValue)
    ensures v.Obj? && Truthy(v)
    ensures v.props.Keys == {"command"}
      + (if req.parameter.Some? then {"parameter"} else {})
      + (if req.commandType.Some? then {"commandType"} else {})
    ensures v.props["command"] == Str(req.command)
    ensures req.parameter.Some? ==> v.props["parameter"] == Str(req.parameter.value)
    ensures req.commandType.Some? ==> v.props["commandType"] == Str(req.commandType.value)
  {
    Obj(map["command" := Str(req.command)]
      + (if req.parameter.Some? then map["parameter" := Str(req.parameter.value)] else map[])
      + (if req.commandType.Some? then map["commandType" := Str(req.commandType.value)] else map[]))
  }

  /** `getDevices`. */
  function GetDevices(client: Client, nowMs: nat, random36: string, hmac: (string, string) -> string,
    fetch: HttpRequest -> FetchOutcome): (x: Exchange)
    ensures x.request.verb == GET && x.request.body.None?
    ensures x.request.url == client.baseUrl + "/v1.1/devices"
  {
    MakeRequest(client, GET, DevicesEndpoint, Undefined, nowMs, random36, hmac, fetch)
  }

  /** `getDeviceStatus`. */
  function GetDeviceStatus(client: Client, deviceId: string, nowMs: nat, random36: string,
    hmac: (string, string) -> string, fetch: HttpRequest -> FetchOutcome): (x: Exchange)
    ensures x.request.verb == GET && x.request.body.None?
    ensures x.request.url == client.baseUrl + "/v1.1/devices/" + deviceId + "/status"
  {
    MakeRequest(client, GET, DeviceStatusEndpoint(deviceId), Undefined, nowMs, random36, hmac, fetch)
  }

  /** `sendCommand`: the only operation whose request carries a body. */
  function SendCommand(client: Client, deviceId: string, command: SwitchBotCommandRequest, nowMs: nat,
    random36: string, hmac: (string, string) -> string, fetch: HttpRequest -> FetchOutcome): (x: Exchange)
    ensures x.request.verb == POST && x.request.body == Some(CommandJson(command))
    ensures x.request.url == client.baseUrl + "/v1.1/devices/" + deviceId + "/commands"
  {
    MakeRequest(client, POST, DeviceCommandsEndpoint(deviceId), CommandJson(command), nowMs, random36, hmac, fetch)
  }

  /** `getScenes`. */
  function GetScenes(client: Client, nowMs: nat, random36: string, hmac: (string, string) -> string,
    fetch: HttpRequest -> FetchOutcome): (x: Exchange)
    ensures x.request.verb == GET && x.request.body.None?
    ensures x.request.url == client.baseUrl + "/v1.1/scenes"
  {
    MakeRequest(client, GET, ScenesEndpoint, Undefined, nowMs, random36, hmac, fetch)
  }

  /** `executeScene`: a POST without a body. */
  function ExecuteScene(client: Client, sceneId: string, nowMs: nat, random36: string,
    hmac: (string, string) -> string, fetch: HttpRequest -> FetchOutcome): (x: Exchange)
    ensures x.request.verb == POST && x.request.body.None?
    ensures x.request.url == client.baseUrl + "/v1.1/scenes/" + sceneId + "/execute"
  {
    MakeRequest(client, POST, ExecuteSceneEndpoint(sceneId), Undefined, nowMs, random36, hmac, fetch)
  }
}
