/**
 * The capability classifier of the device manager: the eight capability
 * flags a device type implies, the managed-device record built at discovery,
 * and the ordered list of commands derived from a record.
 */
module Classifier {

  import opened Wrappers
  import opened Text
  import opened JsValues
  import opened SwitchBotApi

  datatype DeviceCapabilities = DeviceCapabilities(
    supportsPower: bool,
    supportsBrightness: bool,
    supportsColor: bool,
    supportsColorTemperature: bool,
    supportsPosition: bool,
    supportsTemperature: bool,
    supportsHumidity: bool,
    supportsBattery: bool)

  /** The keys of `DeviceCapabilities`, as `getDevicesWithCapability` takes them. */
  datatype Capability =
    | SupportsPower | SupportsBrightness | SupportsColor | SupportsColorTemperature
    | SupportsPosition | SupportsTemperature | SupportsHumidity | SupportsBattery

  predicate Has(caps: DeviceCapabilities, cap: Capability)
  {
    match cap
    case SupportsPower => caps.supportsPower
    case SupportsBrightness => caps.supportsBrightness
    case SupportsColor => caps.supportsColor
    case SupportsColorTemperature => caps.supportsColorTemperature
    case SupportsPosition => caps.supportsPosition
    case SupportsTemperature => caps.supportsTemperature
    case SupportsHumidity => caps.supportsHumidity
    case SupportsBattery => caps.supportsBattery
  }

  const NoCapabilities: DeviceCapabilities := DeviceCapabilities(false, false, false, false, false, false, false, false)
  const PowerOnly: DeviceCapabilities := NoCapabilities.(supportsPower := true)

  /** The lower-cased physical device types the classifier knows. */
  const PhysicalTypes: set<string> := {
    "bot", "plug", "plug mini (us)", "plug mini (jp)", "color bulb", "strip light", "strip light 3",
    "ceiling light", "curtain", "roller shade", "meter", "meter plus", "meter pro", "outdoor meter",
    "humidifier", "evaporative humidifier", "air purifier", "air purifier voc", "air purifier table voc",
    "air purifier pm2.5", "lock", "lock pro", "lock ultra", "lock lite", "motion sensor", "contact sensor",
    "water leak detector", "robot vacuum cleaner s1", "robot vacuum cleaner s1 plus",
    "robot vacuum cleaner k10+", "robot vacuum cleaner k10+ pro", "robot vacuum cleaner s10",
    "robot vacuum cleaner s20", "robot vacuum cleaner k20+ pro"}

  /** The lower-cased infrared remote types the classifier knows. */
  const InfraredTypes: set<string> := {
    "air conditioner", "tv", "light", "fan", "projector", "speaker", "water heater", "air purifier",
    "set top box", "dvd", "camera"}

  const MeterTypes: set<string> := {"meter", "meter plus", "meter pro", "outdoor meter"}

  /** `determineCapabilities`: the switch over the lower-cased type, one table per origin. */
  function DetermineCapabilities(deviceType: string, isInfrared: bool): (r: DeviceCapabilities)
    // a remote can at most be switched
    ensures isInfrared ==> r == NoCapabilities || r == PowerOnly
    // everything that dims, colours or moves can also be switched on and off
    ensures r.supportsBrightness || r.supportsColor || r.supportsColorTemperature || r.supportsPosition ==> r.supportsPower
    ensures r.supportsColor ==> r.supportsBrightness
  {
    var t := Lower(deviceType);
    var none := NoCapabilities;
    if !isInfrared then
      if t == "bot" then
        none.(supportsPower := true, supportsBattery := true)
      else if t in {"plug", "plug mini (us)", "plug mini (jp)"} then
        none.(supportsPower := true)
      else if t == "color bulb" then
        none.(supportsPower := true, supportsBrightness := true, supportsColor := true, supportsColorTemperature := true)
      else if t in {"strip light", "strip light 3"} then
        none.(supportsPower := true, supportsBrightness := true, supportsColor := true)
      else if t == "ceiling light" then
        none.(supportsPower := true, supportsBrightness := true, supportsColorTemperature := true)
      else if t in {"curtain", "roller shade"} then
        none.(supportsPower := true, supportsPosition := true, supportsBattery := true)
      else if t in MeterTypes then
        none.(supportsTemperature := true, supportsHumidity := true, supportsBattery := true)
      else if t in {"humidifier", "evaporative humidifier"} then
        none.(supportsPower := true, supportsHumidity := true)
      else if t in {"air purifier", "air purifier voc", "air purifier table voc", "air purifier pm2.5"} then
        none.(supportsPower := true)
      else if t in {"lock", "lock pro", "lock ultra", "lock lite"} then
        none.(supportsPower := true, supportsBattery := true)
      else if t in {"motion sensor", "contact sensor", "water leak detector"} then
        none.(supportsBattery := true)
      else if t in {"robot vacuum cleaner s1", "robot vacuum cleaner s1 plus", "robot vacuum cleaner k10+",
                    "robot vacuum cleaner k10+ pro", "robot vacuum cleaner s10", "robot vacuum cleaner s20",
                    "robot vacuum cleaner k20+ pro"} then
        none.(supportsPower := true, supportsBattery := true)
      else
        none
    else
      if t in {"air conditioner", "tv", "light", "fan", "projector", "speaker", "water heater", "air purifier"} then
        none.(supportsPower := true)
      else if t in {"set top box", "dvd", "camera"} then
        none.(supportsPower := true)
      else
        none
  }

  /** Classification ignores letter case: a type and its lower-cased form get the same flags. */
  lemma ClassificationIgnoresCase(deviceType: string, isInfrared: bool)
    ensures DetermineCapabilities(deviceType, isInfrared) == DetermineCapabilities(Lower(deviceType), isInfrared)
  {
    LowerIdempotent(deviceType);
  }

  /**
   * A type gets no capability at all exactly when the table of its origin does
   * not list it: every listed type has at least one flag.
   */
  lemma NoCapabilitiesIffUnrecognised(deviceType: string, isInfrared: bool)
    ensures DetermineCapabilities(deviceType, isInfrared) == NoCapabilities <==>
      Lower(deviceType) !in (if isInfrared then InfraredTypes else PhysicalTypes)
  {
  }

  /** Every recognised infrared remote gets power and nothing else. */
  lemma InfraredIsPowerOnly(remoteType: string)
    requires Lower(remoteType) in InfraredTypes
    ensures DetermineCapabilities(remoteType, true) == PowerOnly
  {
  }

  /** Meters report temperature, humidity and battery, and cannot be switched. */
  lemma MetersAreSensors(deviceType: string)
    requires Lower(deviceType) in MeterTypes
    ensures var c := DetermineCapabilities(deviceType, false);
      c.supportsTemperature && c.supportsHumidity && c.supportsBattery && !c.supportsPower
      && !c.supportsBrightness && !c.supportsColor && !c.supportsColorTemperature && !c.supportsPosition
  {
  }

  /** A device as the registry holds it. `lastUpdated` is a clock reading. */
  datatype ManagedDevice = ManagedDevice(
    id: string,
    name: string,
    deviceType: string,
    isInfrared: bool,
    hubDeviceId: Option<string>,
    capabilities: DeviceCapabilities,
    lastStatus: Option<JsValue>,
    lastUpdated: Option<nat>)

  /** `createManagedDevice`: the type is `remoteType` for an infrared remote and `deviceType` otherwise. */
  function CreateManagedDevice(device: VendorDevice): (d: ManagedDevice)
    ensures d.id == device.DeviceId() && d.isInfrared == device.Infrared?
    ensures d.deviceType == (if device.Infrared? then device.remote.remoteType else device.device.deviceType)
    ensures d.name == (if device.Infrared? then device.remote.deviceName else device.device.deviceName)
    ensures d.hubDeviceId == (if device.Infrared? then Some(device.remote.hubDeviceId) else device.device.hubDeviceId)
    ensures d.capabilities == DetermineCapabilities(d.deviceType, d.isInfrared)
    ensures d.lastStatus.None? && d.lastUpdated.None?
  {
    match device
    case Physical(p) =>
      ManagedDevice(p.deviceId, p.deviceName, p.deviceType, false, p.hubDeviceId,
        DetermineCapabilities(p.deviceType, false), None, None)
    case Infrared(r) =>
      ManagedDevice(r.deviceId, r.deviceName, r.remoteType, true, Some(r.hubDeviceId),
        DetermineCapabilities(r.remoteType, true), None, None)
  }

  /** The command names `getSupportedCommands` can produce. */
  datatype Command =
    | TurnOn | TurnOff | SetBrightness | SetColor | SetColorTemperature | SetPosition | Pause
    | Lock | Unlock | Start | Stop | Dock | SetMode
  {
    function Name(): string
    {
      match this
      case TurnOn => "turnOn"
      case TurnOff => "turnOff"
      case SetBrightness => "setBrightness"
      case SetColor => "setColor"
      case SetColorTemperature => "setColorTemperature"
      case SetPosition => "setPosition"
      case Pause => "pause"
      case Lock => "lock"
      case Unlock => "unlock"
      case Start => "start"
      case Stop => "stop"
      case Dock => "dock"
      case SetMode => "setMode"
    }

    /** The position of the command in the order the device manager lists commands. */
    function Rank(): nat
    {
      match this
      case TurnOn => 0
      case TurnOff => 1
      case SetBrightness => 2
      case SetColor => 3
      case SetColorTemperature => 4
      case SetPosition => 5
      case Pause => 6
      case Lock => 7
      case Unlock => 8
      case Start => 9
      case Stop => 10
      case Dock => 11
      case SetMode => 12
    }
  }

  /** Different commands have different names. */
  lemma NameInjective(a: Command, b: Command)
    requires a.Name() == b.Name()
    ensures a == b
  {
    match a
    case TurnOn => assert b.Name()[..5] == "turnO" && b.Name()[5] == 'n';
    case TurnOff => assert b.Name()[..5] == "turnO" && b.Name()[5] == 'f';
    case SetBrightness => assert b.Name()[..4] == "setB";
    case SetColor => assert |b.Name()| == 8 && b.Name()[3] == 'C';
    case SetColorTemperature => assert |b.Name()| == 19;
    case SetPosition => assert b.Name()[..4] == "setP";
    case Pause => assert b.Name()[0] == 'p';
    case Lock => assert b.Name()[..2] == "lo";
    case Unlock => assert b.Name()[0] == 'u';
    case Start => assert b.Name()[..3] == "sta";
    case Stop => assert b.Name()[..3] == "sto";
    case Dock => assert b.Name()[0] == 'd';
    case SetMode => assert b.Name()[..4] == "setM";
  }

  /** The rank of the command a name spells, or -1 for a string that names no command. */
  ghost function RankOfName(name: string): int
  {
    if exists c: Command :: c.Name() == name then
      var c: Command :| c.Name() == name; c.Rank()
    else
      -1
  }

  lemma RankOfNameOf(c: Command)
    ensures RankOfName(c.Name()) == c.Rank()
  {
    forall c2: Command | c2.Name() == c.Name() ensures c2 == c {
      NameInjective(c2, c);
    }
  }

  function Names(cs: seq<Command>): (r: seq<string>)
    ensures |r| == |cs|
    ensures forall i :: 0 <= i < |cs| ==> r[i] == cs[i].Name()
  {
    seq(|cs|, i requires 0 <= i < |cs| => cs[i].Name())
  }

  /** The commands one `push` adds: all of them when `pushed`, none otherwise. */
  function Group(pushed: bool, cs: seq<Command>): seq<Command>
  {
    if pushed then cs else []
  }

  /**
   * What the derivation reads from a device: its flags, its origin, and
   * three substring tests on its lower-cased type.
   */
  datatype CommandInputs = CommandInputs(
    caps: DeviceCapabilities,
    isInfrared: bool,
    mentionsLock: bool,
    mentionsRobotVacuum: bool,
    mentionsHumidifier: bool)

  function InputsOf(d: ManagedDevice): CommandInputs
  {
    var t := Lower(d.deviceType);
    CommandInputs(d.capabilities, d.isInfrared, Includes(t, "lock"), Includes(t, "robot vacuum"), Includes(t, "humidifier"))
  }

  /** The pushes a physical device gets after the power pair, in source order. */
  function PhysicalPushes(x: CommandInputs): seq<Command>
  {
    Group(x.caps.supportsBrightness, [SetBrightness])
    + Group(x.caps.supportsColor, [SetColor])
    + Group(x.caps.supportsColorTemperature, [SetColorTemperature])
    + Group(x.caps.supportsPosition, [SetPosition, Pause])
    + Group(x.mentionsLock, [Lock, Unlock])
    + Group(x.mentionsRobotVacuum, [Start, Stop, Dock])
    + Group(x.mentionsHumidifier, [SetMode])
  }

  /** All pushes of `getSupportedCommands`, in source order. */
  function CommandsFor(x: CommandInputs): seq<Command>
  {
    Group(x.caps.supportsPower, [TurnOn, TurnOff]) + (if x.isInfrared then [] else PhysicalPushes(x))
  }

  /** `getSupportedCommands` for a device that was found, before the names are spelled out. */
  function SupportedCommands(d: ManagedDevice): seq<Command>
  {
    CommandsFor(InputsOf(d))
  }

  /**
   * When a command is supported, stated command by command: the power pair
   * follows the power flag; the rest exist only for physical devices, by flag
   * or by a substring of the lower-cased type.
   */
  predicate AllowedFor(x: CommandInputs, c: Command)
  {
    match c
    case TurnOn | TurnOff => x.caps.supportsPower
    case SetBrightness => !x.isInfrared && x.caps.supportsBrightness
    case SetColor => !x.isInfrared && x.caps.supportsColor
    case SetColorTemperature => !x.isInfrared && x.caps.supportsColorTemperature
    case SetPosition | Pause => !x.isInfrared && x.caps.supportsPosition
    case Lock | Unlock => !x.isInfrared && x.mentionsLock
    case Start | Stop | Dock => !x.isInfrared && x.mentionsRobotVacuum
    case SetMode => !x.isInfrared && x.mentionsHumidifier
  }

  predicate CommandAllowed(d: ManagedDevice, c: Command)
  {
    AllowedFor(InputsOf(d), c)
  }

  lemma MembersOfSeven(g2: seq<Command>, g3: seq<Command>, g4: seq<Command>, g5: seq<Command>,
                       g6: seq<Command>, g7: seq<Command>, g8: seq<Command>, c: Command)
    ensures c in g2 + g3 + g4 + g5 + g6 + g7 + g8 <==>
      c in g2 || c in g3 || c in g4 || c in g5 || c in g6 || c in g7 || c in g8
  {
  }

  /** A command is pushed exactly when `AllowedFor` says so. */
  lemma CommandsForMembers(x: CommandInputs, c: Command)
    ensures c in CommandsFor(x) <==> AllowedFor(x, c)
  {
    var power := Group(x.caps.supportsPower, [TurnOn, TurnOff]);
    if x.isInfrared {
      assert CommandsFor(x) == power + [];
    } else {
      assert CommandsFor(x) == power + PhysicalPushes(x);
      PhysicalPushesMembers(x, c);
    }
  }

  /** The pushes after the power pair hold exactly the allowed commands other than the power pair. */
  lemma PhysicalPushesMembers(x: CommandInputs, c: Command)
    requires !x.isInfrared
    ensures c in PhysicalPushes(x) <==> AllowedFor(x, c) && c != TurnOn && c != TurnOff
  {
    PushedIff(x, c);
    match c
    case TurnOn =>
    case TurnOff =>
    case SetBrightness =>
    case SetColor =>
    case SetColorTemperature =>
    case SetPosition =>
    case Pause =>
    case Lock =>
    case Unlock =>
    case Start =>
    case Stop =>
    case Dock =>
    case SetMode =>
  }

  /** Membership in the pushes, group by group. */
  lemma PushedIff(x: CommandInputs, c: Command)
    ensures c in PhysicalPushes(x) <==>
      (x.caps.supportsBrightness && c == SetBrightness)
      || (x.caps.supportsColor && c == SetColor)
      || (x.caps.supportsColorTemperature && c == SetColorTemperature)
      || (x.caps.supportsPosition && (c == SetPosition || c == Pause))
      || (x.mentionsLock && (c == Lock || c == Unlock))
      || (x.mentionsRobotVacuum && (c == Start || c == Stop || c == Dock))
      || (x.mentionsHumidifier && c == SetMode)
  {
    var g2 := Group(x.caps.supportsBrightness, [SetBrightness]);
    var g3 := Group(x.caps.supportsColor, [SetColor]);
    var g4 := Group(x.caps.supportsColorTemperature, [SetColorTemperature]);
    var g5 := Group(x.caps.supportsPosition, [SetPosition, Pause]);
    var g6 := Group(x.mentionsLock, [Lock, Unlock]);
    var g7 := Group(x.mentionsRobotVacuum, [Start, Stop, Dock]);
    var g8 := Group(x.mentionsHumidifier, [SetMode]);
    MembersOfSeven(g2, g3, g4, g5, g6, g7, g8, c);
    InGroupOfOne(x.caps.supportsBrightness, SetBrightness, c);
    InGroupOfOne(x.caps.supportsColor, SetColor, c);
    InGroupOfOne(x.caps.supportsColorTemperature, SetColorTemperature, c);
    InGroupOfTwo(x.caps.supportsPosition, SetPosition, Pause, c);
    InGroupOfTwo(x.mentionsLock, Lock, Unlock, c);
    InGroupOfThree(x.mentionsRobotVacuum, Start, Stop, Dock, c);
    InGroupOfOne(x.mentionsHumidifier, SetMode, c);
  }

  lemma InGroupOfOne(pushed: bool, a: Command, c: Command)
    ensures c in Group(pushed, [a]) <==> pushed && c == a
  {
  }

  lemma InGroupOfTwo(pushed: bool, a: Command, b: Command, c: Command)
    ensures c in Group(pushed, [a, b]) <==> pushed && (c == a || c == b)
  {
  }

  lemma InGroupOfThree(pushed: bool, a: Command, b: Command, d: Command, c: Command)
    ensures c in Group(pushed, [a, b, d]) <==> pushed && (c == a || c == b || c == d)
  {
  }

  /** Ranks strictly increase along `s`, and all lie in `[lo, hi)`. */
  predicate RankedWithin(s: seq<Command>, lo: nat, hi: nat)
  {
    s == [] || (lo <= s[0].Rank() < hi && RankedWithin(s[1..], s[0].Rank() + 1, hi))
  }

  lemma {:induction false} RankedWeaken(s: seq<Command>, lo: nat, lo': nat, hi: nat)
    requires lo' <= lo && RankedWithin(s, lo, hi)
    ensures RankedWithin(s, lo', hi)
  {
  }

  lemma {:induction false} RankedAppend(a: seq<Command>, b: seq<Command>, lo: nat, mid: nat, hi: nat)
    requires lo <= mid <= hi
    requires RankedWithin(a, lo, mid) && RankedWithin(b, mid, hi)
    ensures RankedWithin(a + b, lo, hi)
  {
    if a == [] {
      assert a + b == b;
      RankedWeaken(b, mid, lo, hi);
    } else {
      assert (a + b)[1..] == a[1..] + b;
      RankedAppend(a[1..], b, a[0].Rank() + 1, mid, hi);
    }
  }

  lemma GroupRanked(pushed: bool, g: seq<Command>, lo: nat, hi: nat)
    requires RankedWithin(g, lo, hi)
    ensures RankedWithin(Group(pushed, g), lo, hi)
  {
  }

  /** The recursive statement of `RankedWithin` as two quantified facts. */
  lemma {:induction false} RankedIncreasing(s: seq<Command>, lo: nat, hi: nat)
    requires RankedWithin(s, lo, hi)
    ensures forall i, j :: 0 <= i < j < |s| ==> s[i].Rank() < s[j].Rank()
    ensures forall i :: 0 <= i < |s| ==> lo <= s[i].Rank() < hi
  {
    if s != [] {
      RankedIncreasing(s[1..], s[0].Rank() + 1, hi);
      assert forall i :: 0 < i < |s| ==> s[i] == s[1..][i - 1];
    }
  }

  lemma RankedSeven(g2: seq<Command>, g3: seq<Command>, g4: seq<Command>, g5: seq<Command>,
                    g6: seq<Command>, g7: seq<Command>, g8: seq<Command>)
    requires RankedWithin(g2, 2, 3) && RankedWithin(g3, 3, 4) && RankedWithin(g4, 4, 5)
    requires RankedWithin(g5, 5, 7) && RankedWithin(g6, 7, 9) && RankedWithin(g7, 9, 12)
    requires RankedWithin(g8, 12, 13)
    ensures RankedWithin(g2 + g3 + g4 + g5 + g6 + g7 + g8, 2, 13)
  {
    RankedAppend(g2, g3, 2, 3, 4);
    RankedAppend(g2 + g3, g4, 2, 4, 5);
    RankedAppend(g2 + g3 + g4, g5, 2, 5, 7);
    RankedAppend(g2 + g3 + g4 + g5, g6, 2, 7, 9);
    RankedAppend(g2 + g3 + g4 + g5 + g6, g7, 2, 9, 12);
    RankedAppend(g2 + g3 + g4 + g5 + g6 + g7, g8, 2, 12, 13);
  }

  lemma PhysicalPushesRanked(x: CommandInputs)
    ensures RankedWithin(PhysicalPushes(x), 2, 13)
  {
    GroupRanked(x.caps.supportsBrightness, [SetBrightness], 2, 3);
    GroupRanked(x.caps.supportsColor, [SetColor], 3, 4);
    GroupRanked(x.caps.supportsColorTemperature, [SetColorTemperature], 4, 5);
    GroupRanked(x.caps.supportsPosition, [SetPosition, Pause], 5, 7);
    GroupRanked(x.mentionsLock, [Lock, Unlock], 7, 9);
    assert RankedWithin([Dock], 11, 12);
    assert RankedWithin([Stop, Dock], 10, 12);
    GroupRanked(x.mentionsRobotVacuum, [Start, Stop, Dock], 9, 12);
    GroupRanked(x.mentionsHumidifier, [SetMode], 12, 13);
    RankedSeven(
      Group(x.caps.supportsBrightness, [SetBrightness]),
      Group(x.caps.supportsColor, [SetColor]),
      Group(x.caps.supportsColorTemperature, [SetColorTemperature]),
      Group(x.caps.supportsPosition, [SetPosition, Pause]),
      Group(x.mentionsLock, [Lock, Unlock]),
      Group(x.mentionsRobotVacuum, [Start, Stop, Dock]),
      Group(x.mentionsHumidifier, [SetMode]));
  }

  /** The pushes come out in rank order, so no command is pushed twice. */
  lemma CommandsForRanked(x: CommandInputs)
    ensures RankedWithin(CommandsFor(x), 0, 13)
  {
    var power := Group(x.caps.supportsPower, [TurnOn, TurnOff]);
    GroupRanked(x.caps.supportsPower, [TurnOn, TurnOff], 0, 2);
    if x.isInfrared {
      assert CommandsFor(x) == power + [];
      RankedAppend(power, [], 0, 2, 13);
    } else {
      PhysicalPushesRanked(x);
      RankedAppend(power, PhysicalPushes(x), 0, 2, 13);
    }
  }

  /** A command is in the derived list exactly when `CommandAllowed` says so. */
  lemma SupportedIffAllowed(d: ManagedDevice, c: Command)
    ensures c in SupportedCommands(d) <==> CommandAllowed(d, c)
  {
    CommandsForMembers(InputsOf(d), c);
  }

  /**
   * The derived list follows the fixed command order (power, brightness,
   * colour, colour temperature, position, lock, vacuum, mode).
   */
  lemma SupportedInRankOrder(d: ManagedDevice)
    ensures forall i, j :: 0 <= i < j < |SupportedCommands(d)| ==>
      SupportedCommands(d)[i].Rank() < SupportedCommands(d)[j].Rank()
  {
    CommandsForRanked(InputsOf(d));
    RankedIncreasing(SupportedCommands(d), 0, 13);
  }

  /** A name is in the list `getSupportedCommands` returns exactly when it names an allowed command. */
  lemma SupportedNameIffAllowed(d: ManagedDevice, name: string)
    ensures name in Names(SupportedCommands(d)) <==> exists c: Command :: c.Name() == name && CommandAllowed(d, c)
  {
    var cs := SupportedCommands(d);
    if name in Names(cs) {
      var i :| 0 <= i < |cs| && Names(cs)[i] == name;
      SupportedIffAllowed(d, cs[i]);
    }
    if exists c: Command :: c.Name() == name && CommandAllowed(d, c) {
      var c: Command :| c.Name() == name && CommandAllowed(d, c);
      SupportedIffAllowed(d, c);
      var i :| 0 <= i < |cs| && cs[i] == c;
      assert Names(cs)[i] == name;
    }
  }

  /** Command by command: its name is listed exactly when the record allows it. */
  lemma SupportedNamesExact(d: ManagedDevice)
    ensures forall c: Command :: c.Name() in Names(SupportedCommands(d)) <==> CommandAllowed(d, c)
  {
    var cs := SupportedCommands(d);
    forall c: Command
      ensures c.Name() in Names(cs) <==> CommandAllowed(d, c)
    {
      SupportedIffAllowed(d, c);
      if c in cs {
        var i :| 0 <= i < |cs| && cs[i] == c;
        assert Names(cs)[i] == c.Name();
      }
      if c.Name() in Names(cs) {
        var i :| 0 <= i < |cs| && Names(cs)[i] == c.Name();
        NameInjective(cs[i], c);
      }
    }
  }

  /** No name is listed twice. */
  lemma SupportedNamesDistinct(d: ManagedDevice)
    ensures forall i, j :: 0 <= i < j < |SupportedCommands(d)| ==> Names(SupportedCommands(d))[i] != Names(SupportedCommands(d))[j]
  {
    var cs := SupportedCommands(d);
    SupportedInRankOrder(d);
    forall i, j | 0 <= i < j < |cs| ensures Names(cs)[i] != Names(cs)[j] {
      if Names(cs)[i] == Names(cs)[j] {
        NameInjective(cs[i], cs[j]);
      }
    }
  }

  /**
   * Every listed name spells a command, and the names follow the fixed command
   * order: read back as ranks, they strictly increase.
   */
  lemma SupportedNamesRanked(d: ManagedDevice)
    ensures forall i :: 0 <= i < |SupportedCommands(d)| ==> RankOfName(Names(SupportedCommands(d))[i]) >= 0
    ensures forall i, j :: 0 <= i < j < |SupportedCommands(d)| ==>
      RankOfName(Names(SupportedCommands(d))[i]) < RankOfName(Names(SupportedCommands(d))[j])
  {
    var cs := SupportedCommands(d);
    forall i | 0 <= i < |cs| ensures RankOfName(Names(cs)[i]) >= 0 {
      RankOfNameOf(cs[i]);
    }
    SupportedInRankOrder(d);
    forall i, j | 0 <= i < j < |cs|
      ensures RankOfName(Names(cs)[i]) < RankOfName(Names(cs)[j])
    {
      RankOfNameOf(cs[i]);
      RankOfNameOf(cs[j]);
    }
  }

  /** An infrared device is offered the power pair or nothing. */
  lemma InfraredCommands(d: ManagedDevice)
    requires d.isInfrared
    ensures SupportedCommands(d) == Group(d.capabilities.supportsPower, [TurnOn, TurnOff])
  {
  }

  /** A Bot is switched and battery-powered, and gets the power pair. */
  lemma BotExample()
    ensures var bot := CreateManagedDevice(Physical(SwitchBotDevice("D1", "Bot", "Bot", true, None)));
      bot.capabilities == NoCapabilities.(supportsPower := true, supportsBattery := true)
      && Names(SupportedCommands(bot)) == ["turnOn", "turnOff"]
  {
    assert Lower("Bot") == "bot";
    IncludesNoLonger("bot", "lock");
    IncludesNoLonger("bot", "robot vacuum");
    IncludesNoLonger("bot", "humidifier");
  }

  /** An infrared TV gets power only, and the power pair. */
  lemma TvExample()
    ensures var tv := CreateManagedDevice(Infrared(SwitchBotInfraredDevice("D2", "TV", "TV", "H1")));
      tv.capabilities == PowerOnly && Names(SupportedCommands(tv)) == ["turnOn", "turnOff"]
  {
    assert Lower("TV") == "tv";
  }

  /** A Lock Pro gets power and battery, and the power pair followed by the lock pair. */
  lemma LockProExample(device: SwitchBotDevice)
    requires device.deviceType == "Lock Pro"
    ensures var d := CreateManagedDevice(Physical(device));
      d.capabilities == NoCapabilities.(supportsPower := true, supportsBattery := true)
      && Names(SupportedCommands(d)) == ["turnOn", "turnOff", "lock", "unlock"]
  {
    var t := "lock pro";
    LowerLockPro(device.deviceType);
    ClassificationIgnoresCase(device.deviceType, false);
    LockProMentions(t);
    PowerLockCommands(CreateManagedDevice(Physical(device)));
  }

  lemma LowerLockPro(s: string)
    requires s == "Lock Pro"
    ensures Lower(s) == "lock pro"
  {
  }

  lemma LockProMentions(t: string)
    requires t == "lock pro"
    ensures DetermineCapabilities(t, false) == NoCapabilities.(supportsPower := true, supportsBattery := true)
    ensures Includes(t, "lock") && !Includes(t, "robot vacuum") && !Includes(t, "humidifier")
  {
    LockProCapabilities(t);
    assert t[..4] == "lock";
    IncludesNoLonger(t, "robot vacuum");
    IncludesNoLonger(t, "humidifier");
  }

  lemma LockProCapabilities(t: string)
    requires t == "lock pro"
    ensures DetermineCapabilities(t, false) == NoCapabilities.(supportsPower := true, supportsBattery := true)
  {
    assert Lower(t) == t;
  }

  /** A physical device with power and battery whose type mentions only "lock" gets the power and lock pairs. */
  lemma PowerLockCommands(d: ManagedDevice)
    requires InputsOf(d) == CommandInputs(NoCapabilities.(supportsPower := true, supportsBattery := true), false, true, false, false)
    ensures Names(SupportedCommands(d)) == ["turnOn", "turnOff", "lock", "unlock"]
  {
  }

  /**
   * A type the table does not list still gets the lock commands when its name
   * contains "lock": an unrecognised type is not command-free.
   */
  lemma UnlistedLockGetsLockCommands(device: SwitchBotDevice)
    requires device.deviceType == "Smart Lock"
    ensures var d := CreateManagedDevice(Physical(device));
      d.capabilities == NoCapabilities && Names(SupportedCommands(d)) == ["lock", "unlock"]
  {
    var t := "smart lock";
    LowerSmartLock(device.deviceType);
    ClassificationIgnoresCase(device.deviceType, false);
    UnlistedTypeHasNoCapabilities(t);
    SmartLockMentions(t);
    FlaglessLockCommands(CreateManagedDevice(Physical(device)));
  }

  lemma LowerSmartLock(s: string)
    requires s == "Smart Lock"
    ensures Lower(s) == "smart lock"
  {
  }

  lemma SmartLockMentions(t: string)
    requires t == "smart lock"
    ensures Includes(t, "lock") && !Includes(t, "robot vacuum") && !Includes(t, "humidifier")
  {
    IncludesIffOccurs(t, "lock");
    assert OccursAt(t, "lock", 6);
    IncludesNoLonger(t, "robot vacuum");
    IncludesNoLonger(t, "humidifier");
  }

  /** A physical device without flags whose type mentions only "lock" is offered exactly the lock pair. */
  lemma FlaglessLockCommands(d: ManagedDevice)
    requires InputsOf(d) == CommandInputs(NoCapabilities, false, true, false, false)
    ensures Names(SupportedCommands(d)) == ["lock", "unlock"]
  {
  }

  lemma UnlistedTypeHasNoCapabilities(t: string)
    requires t == "smart lock"
    ensures DetermineCapabilities(t, false) == NoCapabilities
  {
    assert Lower(t) == t;
    assert t !in PhysicalTypes;
    NoCapabilitiesIffUnrecognised(t, false);
  }
}
