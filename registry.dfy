/**
 * The device registry (`DeviceManager`): an insertion-ordered map from device
 * id to managed record, refilled by discovery, refreshed record by record
 * from status replies, and read by filters and the command-support query.
 *
 * Every reply of the cloud API is an input of the operation that awaits it,
 * and the clock that stamps `lastUpdated` is a natural number.
 */
module Registry {

  import opened Wrappers
  import opened Text
  import opened JsValues
  import opened JsMaps
  import opened JsArrays
  import opened SwitchBotApi
  import opened Classifier

  /** Why `discoverDevices` threw. */
  datatype DiscoveryError =
    | Rethrown(cause: ApiError)              // `getDevices` itself threw
    | FailedToGetDevices(message: JsValue)   // `Failed to get devices: ${message}`
    | ListNotIterable                        // a list of the body could not be iterated

  /** A record as discovery stores it: keyed by its own id, flags derived from its type. */
  ghost predicate WellFormed(k: string, d: ManagedDevice)
  {
    d.id == k && d.capabilities == DetermineCapabilities(d.deviceType, d.isInfrared)
  }

  ghost predicate Consistent(m: JsMap<ManagedDevice>)
  {
    JsMaps.Valid(m) && forall k :: k in m.table ==> WellFormed(k, m.table[k])
  }

  /** The `set` call discovery makes for one listed device. */
  function EntryOf(v: VendorDevice): (string, ManagedDevice)
  {
    (v.DeviceId(), CreateManagedDevice(v))
  }

  function Entries(vs: seq<VendorDevice>): (r: seq<(string, ManagedDevice)>)
    ensures |r| == |vs|
    ensures forall i :: 0 <= i < |vs| ==> r[i] == EntryOf(vs[i])
  {
    seq(|vs|, i requires 0 <= i < |vs| => EntryOf(vs[i]))
  }

  /**
   * The registry a successful device-list reply leaves: cleared, then every
   * physical device set, then every infrared remote. A list that cannot be
   * iterated stops the filling where it stands.
   */
  function Discovered(body: DeviceListBody): JsMap<ManagedDevice>
  {
    match body.deviceList
    case None => Empty()
    case Some(physical) =>
      var afterPhysical := SetAll(Empty(), Entries(AsPhysical(physical)));
      match body.infraredRemoteList
      case None => afterPhysical
      case Some(remotes) => SetAll(afterPhysical, Entries(AsInfrared(remotes)))
  }

  lemma {:induction false} SetAllConsistent(m: JsMap<ManagedDevice>, vs: seq<VendorDevice>)
    requires Consistent(m)
    ensures Consistent(SetAll(m, Entries(vs)))
    decreases |vs|
  {
    if vs != [] {
      var init := vs[..|vs| - 1];
      assert Entries(vs)[..|vs| - 1] == Entries(init);
      SetAllConsistent(m, init);
    }
  }

  /** No record carries a status or a time. */
  ghost predicate Unrefreshed(m: JsMap<ManagedDevice>)
  {
    forall k :: k in m.table ==> m.table[k].lastStatus.None? && m.table[k].lastUpdated.None?
  }

  lemma {:induction false} SetAllFresh(m: JsMap<ManagedDevice>, vs: seq<VendorDevice>)
    requires JsMaps.Valid(m) && Unrefreshed(m)
    ensures Unrefreshed(SetAll(m, Entries(vs)))
    decreases |vs|
  {
    if vs != [] {
      var init := vs[..|vs| - 1];
      assert Entries(vs)[..|vs| - 1] == Entries(init);
      SetAllFresh(m, init);
    }
  }

  lemma {:induction false} EntriesAppend(a: seq<VendorDevice>, b: seq<VendorDevice>)
    ensures Entries(a + b) == Entries(a) + Entries(b)
  {
    var l, r := Entries(a + b), Entries(a) + Entries(b);
    forall i | 0 <= i < |a + b| ensures l[i] == r[i] {
      if i < |a| {
        assert (a + b)[i] == a[i];
      } else {
        assert (a + b)[i] == b[i - |a|];
      }
    }
  }

  lemma {:induction false} SetAllAppend(m: JsMap<ManagedDevice>, a: seq<(string, ManagedDevice)>, b: seq<(string, ManagedDevice)>)
    requires JsMaps.Valid(m)
    ensures SetAll(m, a + b) == SetAll(SetAll(m, a), b)
    decreases |b|
  {
    if b == [] {
      assert a + b == a;
    } else {
      var init := b[..|b| - 1];
      assert (a + b)[..|a + b| - 1] == a + init;
      SetAllAppend(m, a, init);
    }
  }

  lemma ListedIds(body: DeviceListBody)
    requires body.deviceList.Some? && body.infraredRemoteList.Some?
    ensures KeysOf(Entries(Listed(body)))
      == (set d | d in body.deviceList.value :: d.deviceId) + (set r | r in body.infraredRemoteList.value :: r.deviceId)
  {
    var a, b := AsPhysical(body.deviceList.value), AsInfrared(body.infraredRemoteList.value);
    EntriesKeys(a + b);
    IdsAppend(a, b);
    PhysicalIds(body.deviceList.value);
    InfraredIds(body.infraredRemoteList.value);
  }

  /** The ids of a run of listed devices. */
  ghost function Ids(vs: seq<VendorDevice>): set<string>
  {
    set v | v in vs :: v.DeviceId()
  }

  lemma EntriesKeys(vs: seq<VendorDevice>)
    ensures KeysOf(Entries(vs)) == Ids(vs)
  {
    var e := Entries(vs);
    forall k | k in KeysOf(e) ensures k in Ids(vs) {
      var i :| 0 <= i < |e| && e[i].0 == k;
      assert vs[i] in vs;
    }
    forall v | v in vs ensures v.DeviceId() in KeysOf(e) {
      var i :| 0 <= i < |vs| && vs[i] == v;
      assert e[i].0 == v.DeviceId();
    }
  }

  lemma IdsAppend(a: seq<VendorDevice>, b: seq<VendorDevice>)
    ensures Ids(a + b) == Ids(a) + Ids(b)
  {
    assert forall v :: v in a + b <==> v in a || v in b;
  }

  lemma PhysicalIds(list: seq<SwitchBotDevice>)
    ensures Ids(AsPhysical(list)) == set d | d in list :: d.deviceId
  {
    var vs := AsPhysical(list);
    forall v | v in vs ensures v.DeviceId() in set d | d in list :: d.deviceId {
      var i :| 0 <= i < |vs| && vs[i] == v;
      assert list[i] in list;
    }
    forall d | d in list ensures d.deviceId in Ids(vs) {
      var i :| 0 <= i < |list| && list[i] == d;
      assert vs[i] in vs;
    }
  }

  lemma InfraredIds(list: seq<SwitchBotInfraredDevice>)
    ensures Ids(AsInfrared(list)) == set r | r in list :: r.deviceId
  {
    var vs := AsInfrared(list);
    forall v | v in vs ensures v.DeviceId() in set r | r in list :: r.deviceId {
      var i :| 0 <= i < |vs| && vs[i] == v;
      assert list[i] in list;
    }
    forall r | r in list ensures r.deviceId in Ids(vs) {
      var i :| 0 <= i < |list| && list[i] == r;
      assert vs[i] in vs;
    }
  }

  /** With both lists present, discovery is one run of `set` over every listed device, physical first. */
  lemma DiscoveredIsOneRun(body: DeviceListBody)
    requires body.deviceList.Some? && body.infraredRemoteList.Some?
    ensures Discovered(body) == SetAll(Empty(), Entries(Listed(body)))
  {
    var a, b := AsPhysical(body.deviceList.value), AsInfrared(body.infraredRemoteList.value);
    EntriesAppend(a, b);
    SetAllAppend(Empty(), Entries(a), Entries(b));
  }

  /** After discovery the keys are exactly the listed ids, physical and infrared. */
  lemma DiscoveredKeys(body: DeviceListBody)
    requires body.deviceList.Some? && body.infraredRemoteList.Some?
    ensures Discovered(body).table.Keys
      == (set d | d in body.deviceList.value :: d.deviceId) + (set r | r in body.infraredRemoteList.value :: r.deviceId)
  {
    DiscoveredIsOneRun(body);
    SetAllKeys(Empty<ManagedDevice>(), Entries(Listed(body)));
    ListedIds(body);
  }

  /** When an id is listed twice, the later device decides the record; infrared remotes come after physical devices. */
  lemma DiscoveredLastWins(body: DeviceListBody, i: int)
    requires body.deviceList.Some? && body.infraredRemoteList.Some?
    requires 0 <= i < |Listed(body)|
    requires forall j :: i < j < |Listed(body)| ==> Listed(body)[j].DeviceId() != Listed(body)[i].DeviceId()
    ensures Get(Discovered(body), Listed(body)[i].DeviceId()) == Some(CreateManagedDevice(Listed(body)[i]))
  {
    DiscoveredIsOneRun(body);
    var kvs := Entries(Listed(body));
    assert LastFor(kvs, i) by {
      forall j | i < j < |kvs| ensures kvs[j].0 != kvs[i].0 {
        assert kvs[j].0 == Listed(body)[j].DeviceId();
      }
    }
    SetAllLastWins(Empty(), kvs, i);
  }

  /** Every record discovery leaves is keyed by its own id, classified from its type, and has no status yet. */
  lemma DiscoveredRecords(body: DeviceListBody)
    ensures Consistent(Discovered(body))
    ensures Unrefreshed(Discovered(body))
  {
    var e: JsMap<ManagedDevice> := Empty();
    if body.deviceList.Some? {
      var phys := AsPhysical(body.deviceList.value);
      SetAllConsistent(e, phys);
      SetAllFresh(e, phys);
      if body.infraredRemoteList.Some? {
        var remotes := AsInfrared(body.infraredRemoteList.value);
        SetAllConsistent(SetAll(e, Entries(phys)), remotes);
        SetAllFresh(SetAll(e, Entries(phys)), remotes);
      }
    }
  }

  /** A record after one status refresh: only a success stores the body and the time. */
  function Refreshed(d: ManagedDevice, reply: ApiReply<JsValue>, now: nat): (r: ManagedDevice)
    ensures IsSuccess(reply) ==> r.lastStatus == Some(reply.envelope.body) && r.lastUpdated == Some(now)
    ensures !IsSuccess(reply) ==> r == d
    ensures r.(lastStatus := d.lastStatus, lastUpdated := d.lastUpdated) == d
  {
    if IsSuccess(reply) then d.(lastStatus := Some(reply.envelope.body), lastUpdated := Some(now)) else d
  }

  /** A table in which the records under the keys of `ks` are refreshed, each by its own reply and time. */
  ghost function RefreshedAll(t: map<string, ManagedDevice>, ks: seq<string>,
    replies: string -> ApiReply<JsValue>, clock: string -> nat): (r: map<string, ManagedDevice>)
    ensures r.Keys == t.Keys
  {
    map k | k in t :: if k in ks then Refreshed(t[k], replies(k), clock(k)) else t[k]
  }

  /** Refreshing the next key of `keys` is one more map update. */
  lemma RefreshedAllStep(t: map<string, ManagedDevice>, keys: seq<string>, i: int,
    replies: string -> ApiReply<JsValue>, clock: string -> nat)
    requires 0 <= i < |keys| && keys[i] in t && keys[i] !in keys[..i]
    ensures var k := keys[i];
      RefreshedAll(t, keys[..i + 1], replies, clock)
      == RefreshedAll(t, keys[..i], replies, clock)[k := Refreshed(RefreshedAll(t, keys[..i], replies, clock)[k], replies(k), clock(k))]
  {
    var k := keys[i];
    assert keys[..i + 1] == keys[..i] + [k];
    assert forall j :: j in keys[..i + 1] <==> j in keys[..i] || j == k;
  }

  /** Whether `device.type.toLowerCase().includes(type.toLowerCase())`. */
  predicate TypeMatches(d: ManagedDevice, deviceType: string)
  {
    Includes(Lower(d.deviceType), Lower(deviceType))
  }

  class DeviceManager {

    var devices: JsMap<ManagedDevice>

    ghost predicate Valid()
      reads this
    {
      Consistent(devices)
    }

    /** A new manager holds no device. */
    constructor ()
      ensures Valid()
      ensures devices == Empty()
    {
      devices := Empty();
    }

    /**
     * `discoverDevices`: a failed or rejected reply throws before `clear()`,
     * so the registry keeps what it had; a successful one replaces the
     * registry by `Discovered(body)` and returns its values, unless a list
     * cannot be iterated, which throws with the registry half filled.
     */
    method DiscoverDevices(reply: ApiReply<DeviceListBody>) returns (r: Result<seq<ManagedDevice>, DiscoveryError>)
      requires Valid()
      modifies this
      ensures Valid()
      ensures reply.Threw? ==> r == Failure(Rethrown(reply.error)) && devices == old(devices)
      ensures reply.Returned? && !IsSuccess(reply) ==>
        r == Failure(FailedToGetDevices(reply.envelope.message)) && devices == old(devices)
      ensures IsSuccess(reply) ==> devices == Discovered(reply.envelope.body)
      ensures IsSuccess(reply) ==>
        var body := reply.envelope.body;
        if body.deviceList.Some? && body.infraredRemoteList.Some? then r == Success(Values(devices))
        else r == Failure(ListNotIterable)
    {
      if reply.Threw? {
        return Failure(Rethrown(reply.error));
      }
      if reply.envelope.statusCode != Num(100) {
        return Failure(FailedToGetDevices(reply.envelope.message));
      }
      var body := reply.envelope.body;
      DiscoveredRecords(body);
      devices := Empty();
      if body.deviceList.None? {
        return Failure(ListNotIterable);
      }
      SetPhysical(body.deviceList.value);
      if body.infraredRemoteList.None? {
        return Failure(ListNotIterable);
      }
      SetRemotes(body.infraredRemoteList.value);
      return Success(Values(devices));
    }

    /** The first `for ... of` of discovery: one `set` per physical device, in list order. */
    method SetPhysical(physical: seq<SwitchBotDevice>)
      requires JsMaps.Valid(devices)
      modifies this
      ensures devices == SetAll(old(devices), Entries(AsPhysical(physical)))
    {
      ghost var start := devices;
      ghost var kvs := Entries(AsPhysical(physical));
      var i := 0;
      while i < |physical|
        invariant 0 <= i <= |physical|
        invariant devices == SetAll(start, kvs[..i])
      {
        assert SetAll(start, kvs[..i + 1])
            == JsMaps.Set(devices, physical[i].deviceId, CreateManagedDevice(Physical(physical[i]))) by {
          SetAllStep(start, kvs, i);
        }
        devices := JsMaps.Set(devices, physical[i].deviceId, CreateManagedDevice(Physical(physical[i])));
        i := i + 1;
      }
      assert kvs[..i] == kvs;
    }

    /** The second `for ... of` of discovery: one `set` per infrared remote, in list order. */
    method SetRemotes(remotes: seq<SwitchBotInfraredDevice>)
      requires JsMaps.Valid(devices)
      modifies this
      ensures devices == SetAll(old(devices), Entries(AsInfrared(remotes)))
    {
      ghost var start := devices;
      ghost var kvs := Entries(AsInfrared(remotes));
      var i := 0;
      while i < |remotes|
        invariant 0 <= i <= |remotes|
        invariant devices == SetAll(start, kvs[..i])
      {
        assert SetAll(start, kvs[..i + 1])
            == JsMaps.Set(devices, remotes[i].deviceId, CreateManagedDevice(Infrared(remotes[i]))) by {
          SetAllStep(start, kvs, i);
        }
        devices := JsMaps.Set(devices, remotes[i].deviceId, CreateManagedDevice(Infrared(remotes[i])));
        i := i + 1;
      }
      assert kvs[..i] == kvs;
    }

    /** `getAllDevices`: every record once, in insertion order. */
    function GetAllDevices(): (r: seq<ManagedDevice>)
      reads this
      requires Valid()
      ensures |r| == |devices.table|
      ensures forall k :: k in devices.table ==> devices.table[k] in r
      ensures forall i :: 0 <= i < |r| ==> r[i].id in devices.table && devices.table[r[i].id] == r[i]
      ensures forall i, j :: 0 <= i < j < |r| ==> r[i].id != r[j].id
    {
      ValuesHoldEach(devices);
      DistinctCardinality(devices);
      Values(devices)
    }

    /** `getDevice`. */
    function GetDevice(deviceId: string): (r: Option<ManagedDevice>)
      reads this
      requires Valid()
      ensures r.Some? <==> deviceId in devices.table
      ensures r.Some? ==> r.value == devices.table[deviceId] && r.value.id == deviceId
    {
      Get(devices, deviceId)
    }

    /** `getDevicesByType`: a case-insensitive substring match on the type. */
    function GetDevicesByType(deviceType: string): (r: seq<ManagedDevice>)
      reads this
      requires Valid()
      ensures forall i :: 0 <= i < |r| ==> r[i] in GetAllDevices() && TypeMatches(r[i], deviceType)
      ensures forall k :: k in devices.table && TypeMatches(devices.table[k], deviceType) ==> devices.table[k] in r
      ensures forall i, j :: 0 <= i < j < |r| ==> r[i].id != r[j].id
    {
      var p := (d: ManagedDevice) => TypeMatches(d, deviceType);
      FilterKeepsDistinct(GetAllDevices(), p, (d: ManagedDevice) => d.id);
      Filter(GetAllDevices(), p)
    }

    /** `getDevicesWithCapability`: the records whose flag `capability` is set. */
    function GetDevicesWithCapability(capability: Capability): (r: seq<ManagedDevice>)
      reads this
      requires Valid()
      ensures forall i :: 0 <= i < |r| ==> r[i] in GetAllDevices() && Has(r[i].capabilities, capability)
      ensures forall k :: k in devices.table && Has(devices.table[k].capabilities, capability) ==> devices.table[k] in r
      ensures forall i, j :: 0 <= i < j < |r| ==> r[i].id != r[j].id
    {
      var p := (d: ManagedDevice) => Has(d.capabilities, capability);
      FilterKeepsDistinct(GetAllDevices(), p, (d: ManagedDevice) => d.id);
      Filter(GetAllDevices(), p)
    }

    /**
     * `getSupportedCommands`: nothing for an unknown id; for a known one, the
     * name of every command its record allows, each once, in the fixed command
     * order, and no other string.
     */
    function GetSupportedCommands(deviceId: string): (r: seq<string>)
      reads this
      requires Valid()
      ensures deviceId !in devices.table ==> r == []
      ensures deviceId in devices.table ==>
        forall c: Command :: c.Name() in r <==> CommandAllowed(devices.table[deviceId], c)
      ensures forall i, j :: 0 <= i < j < |r| ==> r[i] != r[j]
      ensures deviceId in devices.table ==> forall i :: 0 <= i < |r| ==> RankOfName(r[i]) >= 0
      ensures forall i, j :: 0 <= i < j < |r| ==> RankOfName(r[i]) < RankOfName(r[j])
    {
      match Get(devices, deviceId)
      case None => []
      case Some(d) =>
        SupportedNamesExact(d);
        SupportedNamesDistinct(d);
        SupportedNamesRanked(d);
        Names(SupportedCommands(d))
    }

    /**
     * `isCommandSupported`: membership in the list above, which holds exactly
     * when the device is registered and the name is that of a command the
     * record allows.
     */
    function IsCommandSupported(deviceId: string, command: string): (r: bool)
      reads this
      requires Valid()
      ensures r <==> command in GetSupportedCommands(deviceId)
      ensures r <==> (deviceId in devices.table
        && exists c: Command :: c.Name() == command && CommandAllowed(devices.table[deviceId], c))
    {
      if deviceId in devices.table then SupportedNameIffAllowed(devices.table[deviceId], command); (command in GetSupportedCommands(deviceId))
      else command in GetSupportedCommands(deviceId)
    }

    /**
     * `updateDeviceStatus`: an unknown id, a rejected reply and a thrown error
     * all give `null` and leave the registry as it was; a success stores the
     * body and the time on that one record and returns the body.
     */
    method UpdateDeviceStatus(deviceId: string, reply: ApiReply<JsValue>, now: nat) returns (r: Option<JsValue>)
      requires Valid()
      modifies this
      ensures Valid()
      ensures r.Some? <==> deviceId in old(devices.table) && IsSuccess(reply)
      ensures r.Some? ==> r.value == reply.envelope.body
      ensures devices.order == old(devices.order)
      ensures deviceId !in old(devices.table) ==> devices == old(devices)
      ensures deviceId in old(devices.table) ==>
        devices.table == old(devices.table)[deviceId := Refreshed(old(devices.table)[deviceId], reply, now)]
    {
      var found := Get(devices, deviceId);
      if found.None? {
        return None;
      }
      var device := found.value;
      if reply.Threw? {
        return None;
      }
      if reply.envelope.statusCode == Num(100) {
        devices := JsMaps.Set(devices, deviceId, device.(lastStatus := Some(reply.envelope.body), lastUpdated := Some(now)));
        return Some(reply.envelope.body);
      } else {
        return None;
      }
    }

    /**
     * `updateAllDeviceStatuses`: one refresh per key present at the start, the
     * reply and the clock reading for each key given by `replies` and `clock`.
     * Every record ends refreshed by its own reply; no key is added or lost.
     */
    method UpdateAllDeviceStatuses(replies: string -> ApiReply<JsValue>, clock: string -> nat)
      requires Valid()
      modifies this
      ensures Valid()
      ensures devices.order == old(devices.order)
      ensures devices.table.Keys == old(devices.table).Keys
      ensures forall k :: k in devices.table ==> devices.table[k] == Refreshed(old(devices.table)[k], replies(k), clock(k))
    {
      var keys := devices.order;
      ghost var before := devices.table;
      var i := 0;
      while i < |keys|
        invariant 0 <= i <= |keys|
        invariant Valid()
        invariant devices.order == keys
        invariant devices.table == RefreshedAll(before, keys[..i], replies, clock)
      {
        var k := keys[i];
        assert k !in keys[..i] by {
          assert forall n :: 0 <= n < i ==> keys[..i][n] == keys[n] != k;
        }
        RefreshedAllStep(before, keys, i, replies, clock);
        var _ := UpdateDeviceStatus(k, replies(k), clock(k));
        i := i + 1;
      }
      assert keys[..i] == keys;
    }

    /**
     * `sendDeviceCommand`: an unknown id is refused without a request;
     * otherwise the command goes out with `commandType` `"customize"` for an
     * infrared remote and `"command"` for a physical device, whether or not
     * `isCommandSupported` would accept it, and the result is whether the
     * reply reports success. The registry is only read.
     */
    method SendDeviceCommand(deviceId: string, command: string, parameter: Option<string>, reply: ApiReply<JsValue>)
      returns (ok: bool, sent: Option<SwitchBotCommandRequest>)
      requires Valid()
      ensures deviceId !in devices.table ==> !ok && sent.None?
      ensures deviceId in devices.table ==> sent.Some? && sent.value.command == command && sent.value.parameter == parameter
      ensures sent.Some? ==>
        sent.value.commandType == Some(if devices.table[deviceId].isInfrared then "customize" else "command")
      ensures ok <==> sent.Some? && IsSuccess(reply)
    {
      var found := Get(devices, deviceId);
      if found.None? {
        return false, None;
      }
      var device := found.value;
      var request := SwitchBotCommandRequest(command, parameter, Some(if device.isInfrared then "customize" else "command"));
      if reply.Threw? {
        return false, Some(request);
      }
      ok := reply.envelope.statusCode == Num(100);
      sent := Some(request);
    }
  }

  lemma {:induction false} DistinctCardinality(m: JsMap<ManagedDevice>)
    requires JsMaps.Valid(m)
    ensures |m.table| == |m.order|
  {
    DistinctKeysCount(m.order, m.table.Keys);
  }

  lemma {:induction false} DistinctKeysCount(s: seq<string>, keys: set<string>)
    requires Distinct(s)
    requires forall k :: k in keys <==> k in s
    ensures |keys| == |s|
    decreases |s|
  {
    if s != [] {
      var last := s[|s| - 1];
      var init := s[..|s| - 1];
      assert Distinct(init);
      assert last !in init;
      assert forall k :: k in keys - {last} <==> k in init;
      DistinctKeysCount(init, keys - {last});
    }
  }
}
