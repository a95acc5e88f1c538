/**
 * The Matterbridge platform (`SwitchBotPlatform`): its own map of every
 * device the cloud has listed (`switchBotDevices`, never cleared), the
 * dispatch from vendor type to the kind of Matter endpoint it registers, the
 * level-to-percent brightness conversion, the poll period, and the
 * `sendCommand` wrapper that never throws.
 *
 * The platform keeps no `DeviceManager`: its discovery, storage and command
 * path are separate from the registry's. Registering an endpoint with the
 * host is recorded as a `Registration`; the endpoint itself is not modelled.
 */
module Platform {

  import opened Wrappers
  import opened Text
  import opened JsValues
  import opened JsMaps
  import opened SwitchBotApi
  import opened Classifier

  /** The Matter device types the platform builds. */
  datatype EndpointKind = SwitchEndpoint | OutletEndpoint | LightEndpoint | CurtainEndpoint | InfraredSwitchEndpoint

  /** One endpoint handed to the host, under the id of the device it bridges. */
  datatype Registration = Registration(deviceId: string, kind: EndpointKind)

  /** The `switch` of `registerSwitchBotDevice` over the lower-cased type; `None` is the `default` branch. */
  function PhysicalEndpoint(deviceType: string): Option<EndpointKind>
  {
    var t := Lower(deviceType);
    if t == "bot" then Some(SwitchEndpoint)
    else if t in {"plug", "plug mini (us)", "plug mini (jp)"} then Some(OutletEndpoint)
    else if t in {"color bulb", "strip light", "ceiling light"} then Some(LightEndpoint)
    else if t in {"curtain", "roller shade"} then Some(CurtainEndpoint)
    else None
  }

  /** The `switch` of `registerInfraredDevice` over the lower-cased remote type. */
  function InfraredEndpoint(remoteType: string): Option<EndpointKind>
  {
    if Lower(remoteType) in {"air conditioner", "tv", "light", "fan"} then Some(InfraredSwitchEndpoint) else None
  }

  function EndpointFor(v: VendorDevice): Option<EndpointKind>
  {
    match v
    case Physical(d) => PhysicalEndpoint(d.deviceType)
    case Infrared(r) => InfraredEndpoint(r.remoteType)
  }

  /** The registration one listed device leads to: one endpoint, or none for an unsupported type. */
  function RegistrationOf(v: VendorDevice): seq<Registration>
  {
    match EndpointFor(v)
    case None => []
    case Some(kind) => [Registration(v.DeviceId(), kind)]
  }

  /** The registrations of a run of listed devices, in list order. */
  function RegistrationsOf(vs: seq<VendorDevice>): seq<Registration>
  {
    if vs == [] then [] else RegistrationsOf(vs[..|vs| - 1]) + RegistrationOf(vs[|vs| - 1])
  }

  lemma RegistrationsStep(vs: seq<VendorDevice>, i: nat)
    requires i < |vs|
    ensures RegistrationsOf(vs[..i + 1]) == RegistrationsOf(vs[..i]) + RegistrationOf(vs[i])
  {
    assert vs[..i + 1][..i] == vs[..i];
  }

  /**
   * Exactly the devices of a supported type are registered, each under its
   * own id and with the kind its type dispatches to; the others only reach
   * `switchBotDevices`.
   */
  lemma {:induction false} RegistrationsExact(vs: seq<VendorDevice>)
    ensures |RegistrationsOf(vs)| <= |vs|
    ensures forall j :: 0 <= j < |RegistrationsOf(vs)| ==>
      exists i :: 0 <= i < |vs| && RegistrationsOf(vs)[j].deviceId == vs[i].DeviceId() && EndpointFor(vs[i]) == Some(RegistrationsOf(vs)[j].kind)
    ensures forall i :: 0 <= i < |vs| && EndpointFor(vs[i]).Some? ==>
      Registration(vs[i].DeviceId(), EndpointFor(vs[i]).value) in RegistrationsOf(vs)
  {
    if vs != [] {
      var init := vs[..|vs| - 1];
      RegistrationsExact(init);
      var r := RegistrationsOf(vs);
      assert r == RegistrationsOf(init) + RegistrationOf(vs[|vs| - 1]);
      forall j | 0 <= j < |r|
        ensures exists i :: 0 <= i < |vs| && r[j].deviceId == vs[i].DeviceId() && EndpointFor(vs[i]) == Some(r[j].kind)
      {
        if j < |RegistrationsOf(init)| {
          var i :| 0 <= i < |init| && RegistrationsOf(init)[j].deviceId == init[i].DeviceId()
            && EndpointFor(init[i]) == Some(RegistrationsOf(init)[j].kind);
          assert init[i] == vs[i];
        } else {
          assert r[j].deviceId == vs[|vs| - 1].DeviceId() && EndpointFor(vs[|vs| - 1]) == Some(r[j].kind);
        }
      }
      forall i | 0 <= i < |vs| && EndpointFor(vs[i]).Some?
        ensures Registration(vs[i].DeviceId(), EndpointFor(vs[i]).value) in r
      {
        if i < |init| {
          assert init[i] == vs[i];
        } else {
          assert RegistrationOf(vs[i]) == [Registration(vs[i].DeviceId(), EndpointFor(vs[i]).value)];
        }
      }
    }
  }

  /** The (id, device) pairs `switchBotDevices.set` receives for a run of listed devices. */
  function Keyed(vs: seq<VendorDevice>): (r: seq<(string, VendorDevice)>)
    ensures |r| == |vs|
    ensures forall i :: 0 <= i < |vs| ==> r[i] == (vs[i].DeviceId(), vs[i])
  {
    seq(|vs|, i requires 0 <= i < |vs| => (vs[i].DeviceId(), vs[i]))
  }

  /**
   * `switchBotDevices` after a successful device-list reply: every listed
   * device is set on top of what the map held, physical devices first; a
   * list that cannot be iterated ends the pass where it stands.
   */
  function Stored(m: JsMap<VendorDevice>, body: DeviceListBody): JsMap<VendorDevice>
    requires JsMaps.Valid(m)
  {
    match body.deviceList
    case None => m
    case Some(physical) =>
      var afterPhysical := SetAll(m, Keyed(AsPhysical(physical)));
      match body.infraredRemoteList
      case None => afterPhysical
      case Some(remotes) => SetAll(afterPhysical, Keyed(AsInfrared(remotes)))
  }

  /** The registrations the same pass makes. */
  function Registered(body: DeviceListBody): seq<Registration>
  {
    match body.deviceList
    case None => []
    case Some(physical) =>
      RegistrationsOf(AsPhysical(physical))
      + match body.infraredRemoteList
        case None => []
        case Some(remotes) => RegistrationsOf(AsInfrared(remotes))
  }

  lemma RegisteredConcat(r0: seq<Registration>, a: seq<Registration>, b: seq<Registration>)
    ensures (r0 + a) + b == r0 + (a + b)
  {
  }

  /** Nothing is ever removed from `switchBotDevices`: ids of earlier passes survive. */
  lemma StoredKeepsEarlierIds(m: JsMap<VendorDevice>, body: DeviceListBody)
    requires JsMaps.Valid(m)
    ensures m.table.Keys <= Stored(m, body).table.Keys
  {
    if body.deviceList.Some? {
      var a := Keyed(AsPhysical(body.deviceList.value));
      SetAllKeys(m, a);
      if body.infraredRemoteList.Some? {
        SetAllKeys(SetAll(m, a), Keyed(AsInfrared(body.infraredRemoteList.value)));
      }
    }
  }

  lemma SetAllHoldsEach(m: JsMap<VendorDevice>, vs: seq<VendorDevice>)
    requires JsMaps.Valid(m)
    ensures forall i :: 0 <= i < |vs| ==> vs[i].DeviceId() in SetAll(m, Keyed(vs)).table
  {
    var kvs := Keyed(vs);
    SetAllKeys(m, kvs);
    forall i | 0 <= i < |vs| ensures vs[i].DeviceId() in KeysOf(kvs) {
      assert kvs[i].0 == vs[i].DeviceId();
    }
  }

  /**
   * With both lists present, every listed device is stored under its id,
   * whether or not its type gets an endpoint.
   */
  lemma StoredHoldsEveryListedId(m: JsMap<VendorDevice>, body: DeviceListBody)
    requires JsMaps.Valid(m)
    requires body.deviceList.Some? && body.infraredRemoteList.Some?
    ensures forall i :: 0 <= i < |Listed(body)| ==> Listed(body)[i].DeviceId() in Stored(m, body).table
  {
    var a := AsPhysical(body.deviceList.value);
    var b := AsInfrared(body.infraredRemoteList.value);
    var mid := SetAll(m, Keyed(a));
    var final := SetAll(mid, Keyed(b));
    assert forall i :: 0 <= i < |a| ==> a[i].DeviceId() in final.table by {
      SetAllHoldsEach(m, a);
      SetAllKeys(mid, Keyed(b));
    }
    assert forall i :: 0 <= i < |b| ==> b[i].DeviceId() in final.table by {
      SetAllHoldsEach(mid, b);
    }
    HeldInOrder(a, b, final);
  }

  lemma HeldInOrder(a: seq<VendorDevice>, b: seq<VendorDevice>, final: JsMap<VendorDevice>)
    requires forall i :: 0 <= i < |a| ==> a[i].DeviceId() in final.table
    requires forall i :: 0 <= i < |b| ==> b[i].DeviceId() in final.table
    ensures forall i :: 0 <= i < |a + b| ==> (a + b)[i].DeviceId() in final.table
  {
    forall i | 0 <= i < |a + b| ensures (a + b)[i].DeviceId() in final.table {
      if i >= |a| {
        assert (a + b)[i] == b[i - |a|];
      }
    }
  }

  /** Every physical type that gets an endpoint is one the classifier lists, with power. */
  lemma PhysicalEndpointsAreClassified(deviceType: string)
    requires PhysicalEndpoint(deviceType).Some?
    ensures Lower(deviceType) in PhysicalTypes
    ensures DetermineCapabilities(deviceType, false).supportsPower
    ensures PhysicalEndpoint(deviceType) == Some(LightEndpoint) ==> DetermineCapabilities(deviceType, false).supportsBrightness
    ensures PhysicalEndpoint(deviceType) == Some(CurtainEndpoint) ==> DetermineCapabilities(deviceType, false).supportsPosition
  {
  }

  /** Every remote type that gets an endpoint is one the classifier lists, as power only. */
  lemma InfraredEndpointsAreClassified(remoteType: string)
    requires InfraredEndpoint(remoteType).Some?
    ensures Lower(remoteType) in InfraredTypes
    ensures DetermineCapabilities(remoteType, true) == PowerOnly
  {
    InfraredIsPowerOnly(remoteType);
  }

  /**
   * The platform registers fewer types than the classifier knows: a
   * "Strip Light 3" is classified as a dimmable colour light but gets no
   * endpoint.
   */
  lemma StripLight3IsClassifiedButNotRegistered(deviceType: string)
    requires deviceType == "Strip Light 3"
    ensures PhysicalEndpoint(deviceType).None?
    ensures var c := DetermineCapabilities(deviceType, false);
      c.supportsPower && c.supportsBrightness && c.supportsColor
  {
    assert Lower(deviceType) == "strip light 3";
  }

  /**
   * `Math.round((level / 254) * 100)`, in exact arithmetic: the half-up
   * rounding of `100 * level / 254`. With an integer level no tie can occur
   * (`50 * level / 127` is never an odd multiple of one half), so the
   * floating-point original rounds to the same integer.
   */
  function BrightnessPercent(level: int): int
  {
    (200 * level + 254) / 508
  }

  /** The result is the integer nearest to `100 * level / 254`. */
  lemma BrightnessIsNearest(level: int)
    ensures -254 <= 508 * BrightnessPercent(level) - 200 * level < 254
  {
    var n := 200 * level + 254;
    var q, r := n / 508, n % 508;
    assert n == 508 * q + r && 0 <= r < 508;
    // `r` is twice an odd number, so it is at least 2: the rounding never meets a tie.
    assert r == 4 * (50 * level - 127 * q + 63) + 2;
  }

  /** The end points of the Matter level range map to 0 % and 100 %. */
  lemma BrightnessEnds()
    ensures BrightnessPercent(0) == 0 && BrightnessPercent(254) == 100
  {
  }

  /** A higher level never gives a lower percentage. */
  lemma BrightnessMonotone(a: int, b: int)
    requires a <= b
    ensures BrightnessPercent(a) <= BrightnessPercent(b)
  {
  }

  /** Levels 0 to 254 give percentages 0 to 100. */
  lemma BrightnessInRange(level: int)
    requires 0 <= level <= 254
    ensures 0 <= BrightnessPercent(level) <= 100
  {
    BrightnessMonotone(0, level);
    BrightnessMonotone(level, 254);
  }

  /** The command the light's `moveToLevel` handler sends: the percentage spelled out in decimal. */
  function BrightnessCommand(level: nat): (c: SwitchBotCommandRequest)
    ensures c.command == "setBrightness" && c.commandType.None?
    ensures c.parameter.Some? && forall i :: 0 <= i < |c.parameter.value| ==> IsDigit(c.parameter.value[i])
    ensures DecimalValue(c.parameter.value) == BrightnessPercent(level)
  {
    var percent := BrightnessPercent(level);
    DecimalRoundTrip(percent);
    SwitchBotCommandRequest("setBrightness", Some(DecimalString(percent)), None)
  }

  /** `(pollInterval || 30) * 1000`: an absent or zero setting falls back to 30 seconds. */
  function PollPeriodMs(pollInterval: Option<int>): (ms: int)
    ensures pollInterval.None? || pollInterval == Some(0) ==> ms == 30000
    ensures pollInterval.Some? && pollInterval.value != 0 ==> ms == pollInterval.value * 1000
  {
    (if pollInterval.Some? && pollInterval.value != 0 then pollInterval.value else 30) * 1000
  }

  /** The period is never zero and always a whole number of seconds. */
  lemma PollPeriodNonZero(pollInterval: Option<int>)
    ensures PollPeriodMs(pollInterval) != 0 && PollPeriodMs(pollInterval) % 1000 == 0
  {
  }

  /** The platform settings the model reads. A setting left out is `None`. */
  datatype PlatformConfig = PlatformConfig(
    token: Option<string>,
    secret: Option<string>,
    baseUrl: Option<string>,
    pollInterval: Option<int>)

  /** A string setting that JavaScript treats as true: present and not empty. */
  predicate Given(s: Option<string>)
  {
    s.Some? && s.value != ""
  }

  /** What `sendCommand` logs: it never lets an error escape. */
  datatype SendOutcome = ApiUnavailable | Sent | CommandFailed(message: JsValue) | SendErrored(error: ApiError)

  class SwitchBotPlatform {

    var api: Option<Client>
    var switchBotDevices: JsMap<VendorDevice>
    var registered: seq<Registration>
    /** The period of the running poll timer, if one runs. */
    var pollTimerMs: Option<int>

    ghost predicate Valid()
      reads this
    {
      JsMaps.Valid(switchBotDevices)
    }

    /**
     * The API client exists exactly when both a token and a secret are given;
     * its base URL is the configured one or the vendor's default.
     */
    constructor (config: PlatformConfig)
      ensures Valid()
      ensures api.Some? <==> Given(config.token) && Given(config.secret)
      ensures api.Some? ==> api.value.config.token == config.token.value && api.value.config.secret == config.secret.value
      ensures api.Some? ==> api.value.baseUrl == BaseUrlOr(config.baseUrl)
      ensures switchBotDevices == Empty() && registered == [] && pollTimerMs.None?
    {
      if Given(config.token) && Given(config.secret) {
        var url := BaseUrlOr(config.baseUrl);
        BaseUrlDefaultTwice(config.baseUrl);
        api := Some(NewClient(SwitchBotConfig(config.token.value, config.secret.value, Some(url))));
      } else {
        api := None;
      }
      switchBotDevices := Empty();
      registered := [];
      pollTimerMs := None;
    }

    /** `registerSwitchBotDevice` and `registerInfraredDevice`: one endpoint for a supported type, none otherwise. */
    method Register(v: VendorDevice)
      modifies this
      ensures registered == old(registered) + RegistrationOf(v)
      ensures api == old(api) && switchBotDevices == old(switchBotDevices) && pollTimerMs == old(pollTimerMs)
    {
      var kind := EndpointFor(v);
      if kind.Some? {
        registered := registered + [Registration(v.DeviceId(), kind.value)];
      }
    }

    /** One iteration of a discovery loop: `switchBotDevices.set`, then the registration attempt. */
    method StoreAndRegisterOne(v: VendorDevice)
      requires Valid()
      modifies this
      ensures switchBotDevices == JsMaps.Set(old(switchBotDevices), v.DeviceId(), v)
      ensures registered == old(registered) + RegistrationOf(v)
      ensures api == old(api) && pollTimerMs == old(pollTimerMs)
    {
      switchBotDevices := JsMaps.Set(switchBotDevices, v.DeviceId(), v);
      Register(v);
    }

    /** One `for ... of` loop of discovery: store each device, then try to register it. */
    method StoreAndRegister(vs: seq<VendorDevice>)
      requires Valid()
      modifies this
      ensures Valid()
      ensures switchBotDevices == SetAll(old(switchBotDevices), Keyed(vs))
      ensures registered == old(registered) + RegistrationsOf(vs)
      ensures api == old(api) && pollTimerMs == old(pollTimerMs)
    {
      ghost var start, before := switchBotDevices, registered;
      ghost var kvs := Keyed(vs);
      var i := 0;
      while i < |vs|
        invariant 0 <= i <= |vs|
        invariant Valid()
        invariant switchBotDevices == SetAll(start, kvs[..i])
        invariant registered == before + RegistrationsOf(vs[..i])
        invariant api == old(api) && pollTimerMs == old(pollTimerMs)
      {
        assert SetAll(start, kvs[..i + 1]) == JsMaps.Set(switchBotDevices, vs[i].DeviceId(), vs[i]) by {
          SetAllStep(start, kvs, i);
        }
        assert before + RegistrationsOf(vs[..i + 1]) == registered + RegistrationOf(vs[i]) by {
          RegistrationsStep(vs, i);
          RegisteredConcat(before, RegistrationsOf(vs[..i]), RegistrationOf(vs[i]));
        }
        StoreAndRegisterOne(vs[i]);
        i := i + 1;
      }
      assert kvs[..i] == kvs && vs[..i] == vs;
    }

    /** Lines after the status check of `discoverDevices`: both loops, until a list cannot be iterated. */
    method StoreAndRegisterBody(body: DeviceListBody)
      requires Valid()
      modifies this
      ensures Valid()
      ensures api == old(api) && pollTimerMs == old(pollTimerMs)
      ensures switchBotDevices == Stored(old(switchBotDevices), body)
      ensures registered == old(registered) + Registered(body)
    {
      ghost var r0 := registered;
      if body.deviceList.None? {
        assert r0 + Registered(body) == r0;
        return;
      }
      var physical := AsPhysical(body.deviceList.value);
      ghost var a := RegistrationsOf(physical);
      StoreAndRegister(physical);
      if body.infraredRemoteList.None? {
        assert Registered(body) == a + [];
        return;
      }
      var remotes := AsInfrared(body.infraredRemoteList.value);
      ghost var b := RegistrationsOf(remotes);
      StoreAndRegister(remotes);
      RegisteredConcat(r0, a, b);
    }

    /**
     * `discoverDevices`: without an API client, on a thrown error and on a
     * reply other than 100 nothing changes; otherwise every listed device is
     * stored and the supported ones registered, physical devices first. The
     * method never fails: every error is logged.
     */
    method DiscoverDevices(reply: ApiReply<DeviceListBody>)
      requires Valid()
      modifies this
      ensures Valid()
      ensures api == old(api) && pollTimerMs == old(pollTimerMs)
      ensures api.None? || !IsSuccess(reply) ==>
        switchBotDevices == old(switchBotDevices) && registered == old(registered)
      ensures api.Some? && IsSuccess(reply) ==>
        switchBotDevices == Stored(old(switchBotDevices), reply.envelope.body)
        && registered == old(registered) + Registered(reply.envelope.body)
    {
      if api.None? {
        return;
      }
      if reply.Threw? || reply.envelope.statusCode != Num(100) {
        return;
      }
      StoreAndRegisterBody(reply.envelope.body);
    }

    /**
     * `sendCommand`: without an API client nothing is sent; otherwise the
     * request `SwitchBotApi.SendCommand` builds goes out, and whatever comes
     * back, rejection or thrown error, is only reported.
     */
    method SendCommand(deviceId: string, command: SwitchBotCommandRequest, nowMs: nat, random36: string,
      hmac: (string, string) -> string, fetch: HttpRequest -> FetchOutcome)
      returns (sent: Option<HttpRequest>, outcome: SendOutcome)
      ensures api.None? ==> sent.None? && outcome == ApiUnavailable
      ensures api.Some? ==> (sent.Some?
        && sent.value.url == api.value.baseUrl + "/v1.1/devices/" + deviceId + "/commands"
        && sent.value.verb == POST && sent.value.body == Some(CommandJson(command)))
      ensures api.Some? ==>
        var reply := ReplyOf(fetch(sent.value));
        (outcome == Sent <==> IsSuccess(reply))
        && (reply.Threw? ==> outcome == SendErrored(reply.error))
        && (reply.Returned? && !IsSuccess(reply) ==> outcome == CommandFailed(reply.envelope.message))
    {
      if api.None? {
        return None, ApiUnavailable;
      }
      var x := SwitchBotApi.SendCommand(api.value, deviceId, command, nowMs, random36, hmac, fetch);
      sent := Some(x.request);
      if x.reply.Threw? {
        outcome := SendErrored(x.reply.error);
      } else if x.reply.envelope.statusCode != Num(100) {
        outcome := CommandFailed(x.reply.envelope.message);
      } else {
        outcome := Sent;
      }
    }

    /** `startPolling`: a timer with the configured period, or 30 seconds. */
    method StartPolling(pollInterval: Option<int>)
      modifies this
      ensures pollTimerMs == Some(PollPeriodMs(pollInterval))
      ensures api == old(api) && switchBotDevices == old(switchBotDevices) && registered == old(registered)
    {
      pollTimerMs := Some(PollPeriodMs(pollInterval));
    }

    /** The polling part of `onShutdown`: a running timer is cleared. */
    method StopPolling()
      modifies this
      ensures pollTimerMs.None?
      ensures api == old(api) && switchBotDevices == old(switchBotDevices) && registered == old(registered)
    {
      if pollTimerMs.Some? {
        pollTimerMs := None;
      }
    }
  }
}
