# SwitchBot Matterbridge plugin — a verified model of its core

This project models the core of a Matterbridge plugin. The plugin bridges SwitchBot devices, physical devices and infrared remotes, into Matter. The model covers three parts.

- **The device registry and classifier** (`src/device-manager.ts`).
  - `DeviceManager` keeps an insertion-ordered `Map` from device id to a managed record.
  - Discovery clears and refills the map, status refresh updates one record at a time, and read-only filters query it.
  - A pure table maps a lower-cased type and an infrared flag to eight capability flags.
  - A second function derives an ordered command list from those flags and from substring tests on the type.
- **The cloud client** (`src/switchbot-api.ts`).
  - It covers the default base URL, the endpoint paths, the signed string and the header map, and when a JSON body is attached.
  - It also covers how a response is normalised into a `{statusCode, message, body}` envelope.
- **The platform's own bookkeeping** (`src/module.ts`).
  - This includes its `switchBotDevices` map, which is never cleared, and the dispatch from vendor type to the kind of Matter endpoint it registers.
  - It also includes the level-to-percent brightness conversion, the poll period, and the `sendCommand` wrapper that never throws.

Modules and files:

| file | module | contents |
|---|---|---|
| `wrappers.dfy` | `Wrappers` | `Option` and `Result` |
| `text.dfy` | `Text` | ASCII `toLowerCase`, `includes`, `substring`, decimal `toString` and its inverse |
| `js_values.dfy` | `JsValues` | decoded JSON values, JavaScript truthiness, `a \|\| b` |
| `js_maps.dfy` | `JsMaps` | a JavaScript `Map` with string keys: entries plus insertion order |
| `js_arrays.dfy` | `JsArrays` | `Array.prototype.filter` |
| `switchbot_api.dfy` | `SwitchBotApi` | the vendor records, the client, request shaping and the response envelope |
| `classifier.dfy` | `Classifier` | capabilities, the managed record, the command derivation |
| `registry.dfy` | `Registry` | class `DeviceManager` |
| `platform.dfy` | `Platform` | class `SwitchBotPlatform` |

Everything the code obtains from outside becomes an input of the operation that awaits it:
- every vendor reply is a value `ApiReply` (`Returned(envelope)` or `Threw(error)`);
- the clock behind `new Date()` and `Date.now()` is a natural number;
- `Math.random().toString(36)` is a string;
- HMAC-SHA256 with base64 is a function `(secret, data) -> signature`;
- `fetch` followed by `response.json()` is a function from the request to its outcome.

A vendor `statusCode` is a JSON value, so `=== 100` means exactly the number 100.

Behaviour of the code that the model keeps as written:
- A type that the capability table does not list still gets `lock`/`unlock` when its lower-cased name contains "lock" (`Classifier.UnlistedLockGetsLockCommands`). An unrecognised type is therefore not always command-free.
- The nonce is `substring(2, 15)` of the base-36 rendering. It has at most 13 characters, and the code guarantees no minimum (`SwitchBotApi.ShortNonce`).
- The platform (`src/module.ts`) does not use `DeviceManager`. It keeps its own `switchBotDevices` map, which discovery never clears. The registry's map is cleared on every successful discovery.
- The platform registers fewer types than the classifier knows. For example, "Strip Light 3" is classified as a dimmable colour light but gets no endpoint (`Platform.StripLight3IsClassifiedButNotRegistered`). Each type that does get an endpoint is one the classifier lists.
- `sendDeviceCommand` never consults `isCommandSupported`. Any command for a known id is sent, and its `commandType` depends only on the record's infrared flag (`Registry.DeviceManager.SendDeviceCommand`).
- A device list that cannot be iterated raises a `TypeError`:
  - in the registry, after `clear()`, so the registry is left empty or holding only the physical devices (`Registry.DeviceManager.DiscoverDevices` returns `ListNotIterable`);
  - in the platform, the error is caught and logged after the devices stored so far (`Platform.Stored`).

## Model

| member | source | states |
|---|---|---|
| Text.Lower | src/device-manager.ts:200 | lower-casing keeps the length, maps each character by itself, and leaves no upper-case ASCII letter |
| Text.Includes | src/device-manager.ts:93 | `String.prototype.includes` as a scan over the text's suffixes; its meaning is stated by `IncludesIffOccurs` |
| Text.IncludesIffOccurs | src/device-manager.ts:359 | the scanning `includes` holds exactly when the needle occurs at some position of the text |
| Text.IncludesNoLonger | src/device-manager.ts:363 | a text no longer than the needle includes it only by being equal to it |
| Text.Substring | src/switchbot-api.ts:57 | `substring` returns at most `end - start` characters of the text, and exactly the slice when the bounds are in range |
| Text.DecimalString | src/switchbot-api.ts:56 | the decimal rendering of a clock reading is a non-empty string of digits with no leading zero |
| Text.DecimalRoundTrip | src/switchbot-api.ts:56 | reading the decimal rendering back gives the original number |
| Text.DecimalInjective | src/switchbot-api.ts:56 | different clock readings give different `t` strings |
| JsValues.Truthy | src/switchbot-api.ts:89 | ToBoolean: `undefined`, `null`, `false`, `0` and `""` are falsy, every other value is truthy |
| JsValues.Property | src/switchbot-api.ts:98-100 | reading a property that the object does not have gives `undefined` |
| JsValues.Or | src/switchbot-api.ts:98-100 | `a \|\| b` is one of its operands, and it is truthy exactly when either operand is |
| JsMaps.Empty | src/device-manager.ts:50 | `new Map()` and `clear()` give a map with no key and an empty insertion order |
| JsMaps.Get | src/device-manager.ts:85 | `get` finds a value exactly when the key is present, and it is the value stored under that key |
| JsMaps.Set | src/device-manager.ts:55 | `set` stores the value under the key, appends a new key to the insertion order and keeps an existing key's position |
| JsMaps.Values | src/device-manager.ts:67 | `Array.from(values())` lists one value per key, in insertion order |
| JsMaps.SetAllKeys | src/device-manager.ts:53-64 | after a run of `set` calls the keys are the old keys plus every key that was set |
| JsMaps.SetAllUntouched | src/device-manager.ts:53-64 | a key that no call sets keeps its old entry or stays absent |
| JsMaps.SetAllLastWins | src/device-manager.ts:53-64 | when a key is set several times, the last value set wins |
| JsMaps.SetAllKeepsOrder | src/module.ts:127-136 | setting keys never moves or removes a key already present |
| JsArrays.Filter | src/device-manager.ts:92-94 | the filter keeps only elements of the input that pass, and keeps every one that passes |
| JsArrays.FilterKeepsDistinct | src/device-manager.ts:92-94 | the filter keeps a subsequence: elements with pairwise different keys still have them after filtering |
| JsArrays.FilterAppend | src/device-manager.ts:92-94 | the filter keeps the input order: the survivors of `a + b` are those of `a` followed by those of `b` |
| SwitchBotApi.BaseUrlOr | src/switchbot-api.ts:49 | the base URL is the configured one when it is non-empty, otherwise `https://api.switch-bot.com`; never empty |
| SwitchBotApi.NewClient | src/switchbot-api.ts:47-50 | the client keeps its configuration and settles on the configured base URL or the default |
| SwitchBotApi.BaseUrlDefaultTwice | src/module.ts:42 | the platform's default followed by the client's own default is the same as applying it once |
| SwitchBotApi.Nonce | src/switchbot-api.ts:57 | the nonce is the characters from index 2 up to index 15 of the base-36 string: at most 13, and exactly 13 when the string is long enough |
| SwitchBotApi.ShortNonce | src/switchbot-api.ts:57 | a short base-36 string gives a one-character or empty nonce, so there is no minimum length |
| SwitchBotApi.GenerateAuthHeaders | src/switchbot-api.ts:55-71 | exactly the six header names; `Authorization` is the token; `t` and `nonce` are the values signed; `sign` is the signature of `token + t + nonce` under the secret |
| SwitchBotApi.HeadersDetermineSignedInput | src/switchbot-api.ts:56-58 | two header maps with the same `t` were made from the same clock reading |
| SwitchBotApi.BuildRequest | src/switchbot-api.ts:81-91 | the URL is the base URL followed by the endpoint; the headers are fresh for this call; a body is attached exactly for a POST with a truthy body |
| SwitchBotApi.RequestFailure | src/switchbot-api.ts:103 | every rethrown error message starts with `SwitchBot API request failed: ` |
| SwitchBotApi.ReplyOf | src/switchbot-api.ts:93-104 | a fetch failure, unparsable JSON and a `null`/`undefined` document are rethrown with the prefix; otherwise each envelope field is the vendor's value when truthy and falls back to the HTTP status, the status text or the whole document |
| SwitchBotApi.IsSuccess | src/device-manager.ts:45 | a reply is a success exactly when it was returned with `statusCode === 100` |
| SwitchBotApi.SuccessIff | src/switchbot-api.ts:97-98 | a reply reads as success exactly when the vendor code is 100, or when it is falsy and the HTTP status is 100 |
| SwitchBotApi.VendorFailureIsReturned | src/switchbot-api.ts:97-101 | a non-zero vendor code other than 100 comes back as a returned failure with that code, not as a thrown error |
| SwitchBotApi.FalsyFieldsFallBack | src/switchbot-api.ts:98-100 | a vendor code of 0 and an empty message are replaced by the HTTP status line, and the whole document becomes the body |
| SwitchBotApi.BodyTruthy | src/switchbot-api.ts:100 | when the document is an object or array the envelope body is truthy |
| SwitchBotApi.MakeRequest | src/switchbot-api.ts:76-105 | one call builds one request with its own headers and hands exactly that request to `fetch` |
| SwitchBotApi.CommandJson | src/switchbot-api.ts:90 | the serialised command object has `command`, and has `parameter` and `commandType` exactly when they are given; each property carries the value given for it |
| SwitchBotApi.GetDevices | src/switchbot-api.ts:110-115 | a GET of `/v1.1/devices` without a body |
| SwitchBotApi.GetDeviceStatus | src/switchbot-api.ts:120-122 | a GET of `/v1.1/devices/{id}/status` without a body |
| SwitchBotApi.SendCommand | src/switchbot-api.ts:127-132 | a POST of `/v1.1/devices/{id}/commands` carrying the command object |
| SwitchBotApi.GetScenes | src/switchbot-api.ts:137-139 | a GET of `/v1.1/scenes` without a body |
| SwitchBotApi.ExecuteScene | src/switchbot-api.ts:144-146 | a POST of `/v1.1/scenes/{id}/execute` without a body |
| SwitchBotApi.DeviceStatusEndpointInjective | src/switchbot-api.ts:121 | different device ids have different status endpoints |
| SwitchBotApi.DeviceCommandsEndpointInjective | src/switchbot-api.ts:131 | different device ids have different command endpoints |
| SwitchBotApi.StatusAndCommandsEndpointsDiffer | src/switchbot-api.ts:121-131 | no status endpoint is a command endpoint, whatever the two ids |
| Classifier.DetermineCapabilities | src/device-manager.ts:199-324 | `determineCapabilities`: a remote gets power only or nothing; any type that dims, colours or moves can also be switched; a coloured light is also dimmable. The lemmas below characterise the infrared table, the split between listed and unlisted types, and the meter family; the flags of each other physical family are given by the body alone |
| Classifier.ClassificationIgnoresCase | src/device-manager.ts:199-200 | a type and its lower-cased form get the same flags |
| Classifier.NoCapabilitiesIffUnrecognised | src/device-manager.ts:202-321 | all eight flags are false exactly when the table of the device's origin does not list its lower-cased type |
| Classifier.InfraredIsPowerOnly | src/device-manager.ts:303-320 | every recognised infrared remote type gets power and no other flag |
| Classifier.MetersAreSensors | src/device-manager.ts:254-261 | meter types report temperature, humidity and battery, and have no power, brightness, colour or position |
| Classifier.CreateManagedDevice | src/device-manager.ts:178-194 | the record takes the device id and name, the remote type and hub for an infrared remote and the device type and (possibly absent) hub otherwise, and the flags classified from that type; it has no status and no update time |
| Classifier.CommandsFor | src/device-manager.ts:336-370 | the pushes of `getSupportedCommands` over the record's flags, origin and type substrings; it has no contract of its own, and its meaning is stated by `SupportedIffAllowed` and `SupportedInRankOrder` |
| Classifier.SupportedCommands | src/device-manager.ts:329-373 | `getSupportedCommands` for a record that was found, before the names are spelled out; characterised by the lemmas below |
| Classifier.SupportedIffAllowed | src/device-manager.ts:336-370 | a command is derived exactly when allowed: the power pair by the power flag; the others only for physical devices, by flag or by a substring of the lower-cased type |
| Classifier.SupportedNamesExact | src/device-manager.ts:336-370 | a command's name is in the derived list exactly when the record allows that command |
| Classifier.SupportedInRankOrder | src/device-manager.ts:336-370 | the derived list follows the fixed order: power, brightness, colour, colour temperature, position and pause, lock, vacuum, mode |
| Classifier.SupportedNamesRanked | src/device-manager.ts:336-370 | the listed names, read back as command ranks, strictly increase |
| Classifier.SupportedNameIffAllowed | src/device-manager.ts:336-370 | a name is in the derived list exactly when some allowed command has that name |
| Classifier.SupportedNamesDistinct | src/device-manager.ts:336-370 | no name appears twice in the derived list |
| Classifier.InfraredCommands | src/device-manager.ts:336-340 | an infrared device gets the power pair or nothing |
| Classifier.BotExample | src/device-manager.ts:216-219 | a Bot is switched and battery-powered and is offered `turnOn`, `turnOff` |
| Classifier.TvExample | src/device-manager.ts:303-313 | an infrared TV has power only and is offered `turnOn`, `turnOff` |
| Classifier.LockProExample | src/device-manager.ts:276-282 | a Lock Pro has power and battery and is offered `turnOn`, `turnOff`, `lock`, `unlock` |
| Classifier.UnlistedLockGetsLockCommands | src/device-manager.ts:358-361 | a "Smart Lock", which the table does not list, has no flags but is offered `lock`, `unlock` |
| Registry.Discovered | src/device-manager.ts:49-64 | the registry after the two discovery loops; its keys, values and order are stated by `DiscoveredIsOneRun`, `DiscoveredKeys`, `DiscoveredLastWins` and `DiscoveredRecords` |
| Registry.Entries | src/device-manager.ts:53-64 | one `set` per listed device, under that device's id, in list order |
| Registry.DiscoveredIsOneRun | src/device-manager.ts:50-64 | with both lists present, discovery is one run of `set` over all listed devices, physical first, on an empty map |
| Registry.DiscoveredKeys | src/device-manager.ts:50-64 | after discovery the keys are exactly the listed physical and infrared ids |
| Registry.DiscoveredLastWins | src/device-manager.ts:53-64 | for an id listed more than once, the record comes from its last listing; an infrared remote overrides a physical device |
| Registry.DiscoveredRecords | src/device-manager.ts:186-193 | every record left by discovery is keyed by its own id, classified from its own type, and has no status or time |
| Registry.Refreshed | src/device-manager.ts:119-127 | only a success stores the body and the time on a record; a failure leaves it as it was; no other field changes |
| Registry.DeviceManager.constructor | src/device-manager.ts:27-34 | a new manager holds no device |
| Registry.DeviceManager.DiscoverDevices | src/device-manager.ts:39-72 | a thrown or rejected reply is rethrown and the registry keeps its contents; a success replaces the registry by the listed devices and returns its values, or fails after a partial refill when a list cannot be iterated |
| Registry.DeviceManager.SetPhysical | src/device-manager.ts:53-57 | the physical loop sets each device under its id, in list order |
| Registry.DeviceManager.SetRemotes | src/device-manager.ts:60-64 | the infrared loop sets each remote under its id, in list order |
| Registry.DeviceManager.GetAllDevices | src/device-manager.ts:77-79 | every stored record exactly once (no two with the same id), each one under its own id |
| Registry.DeviceManager.GetDevice | src/device-manager.ts:84-86 | a record is found exactly when its id is stored, and it is the record with that id |
| Registry.DeviceManager.GetDevicesByType | src/device-manager.ts:91-95 | exactly the stored records whose lower-cased type contains the lower-cased query, none of them twice |
| Registry.DeviceManager.GetDevicesWithCapability | src/device-manager.ts:100-104 | exactly the stored records whose named flag is set, none of them twice |
| Registry.DeviceManager.GetSupportedCommands | src/device-manager.ts:329-373 | nothing for an unknown id; otherwise the name of every command the record allows, each once, in the fixed push order (power pair, brightness, colour, colour temperature, position and pause, lock, vacuum, mode), and no string that names no command |
| Registry.DeviceManager.IsCommandSupported | src/device-manager.ts:378-381 | true exactly when the name is in the supported list, which holds exactly when the id is stored and some allowed command has that name |
| Registry.DeviceManager.UpdateDeviceStatus | src/device-manager.ts:109-132 | an unknown id, a rejected reply and a thrown error give nothing and change nothing; a success stores the body and time on that record only and returns the body |
| Registry.DeviceManager.UpdateAllDeviceStatuses | src/device-manager.ts:137-143 | every key present at the start is refreshed by its own reply; no key is added, lost or moved |
| Registry.DeviceManager.SendDeviceCommand | src/device-manager.ts:148-173 | an unknown id is refused without a request; otherwise the command and parameter go out with `customize` for infrared and `command` otherwise; the result is true exactly on a success reply; the registry is only read |
| Platform.PhysicalEndpoint | src/module.ts:149-170 | the type dispatch of `registerSwitchBotDevice` on the lower-cased type; related to the classifier by `PhysicalEndpointsAreClassified` |
| Platform.InfraredEndpoint | src/module.ts:180-190 | the type dispatch of `registerInfraredDevice`; related to the classifier by `InfraredEndpointsAreClassified` |
| Platform.Stored | src/module.ts:124-136 | `switchBotDevices` after one discovery pass; stated by `StoredKeepsEarlierIds` and `StoredHoldsEveryListedId` |
| Platform.Registered | src/module.ts:124-136 | the registrations one discovery pass makes; stated by `RegistrationsExact` |
| Platform.RegistrationsExact | src/module.ts:144-193 | exactly the devices of a type that dispatches to an endpoint are registered, each under its own id with that endpoint kind |
| Platform.StoredKeepsEarlierIds | src/module.ts:127-136 | discovery never removes an id from `switchBotDevices` |
| Platform.StoredHoldsEveryListedId | src/module.ts:127-136 | every listed device is stored under its id, whether or not its type gets an endpoint |
| Platform.PhysicalEndpointsAreClassified | src/module.ts:149-170 | every physical type that gets an endpoint is listed by the classifier with power; lights have brightness and curtains have position |
| Platform.InfraredEndpointsAreClassified | src/module.ts:180-190 | every remote type that gets an endpoint is listed by the classifier as power only |
| Platform.StripLight3IsClassifiedButNotRegistered | src/module.ts:158-161 | "Strip Light 3" gets no endpoint although it is classified as a dimmable colour light |
| Platform.BrightnessPercent | src/module.ts:261 | `Math.round(level / 254 * 100)` in exact integer arithmetic; its meaning is stated by the four lemmas below |
| Platform.BrightnessIsNearest | src/module.ts:261 | the percentage is the integer nearest to `100 * level / 254` |
| Platform.BrightnessEnds | src/module.ts:261 | level 0 gives 0 % and level 254 gives 100 % |
| Platform.BrightnessMonotone | src/module.ts:261 | a higher level never gives a lower percentage |
| Platform.BrightnessInRange | src/module.ts:261 | levels 0 to 254 give percentages 0 to 100 |
| Platform.BrightnessCommand | src/module.ts:260-262 | `setBrightness` with a parameter of decimal digits that reads back as the percentage |
| Platform.PollPeriodMs | src/module.ts:380 | an absent or zero setting gives 30000 ms; any other setting gives that many seconds |
| Platform.PollPeriodNonZero | src/module.ts:380 | the period is never zero and is a whole number of seconds |
| Platform.SwitchBotPlatform.constructor | src/module.ts:38-48 | the client exists exactly when both token and secret are given, and it carries them with the configured or default base URL; nothing is stored, registered or polled |
| Platform.SwitchBotPlatform.Register | src/module.ts:144-193 | one registration for a type with an endpoint, none otherwise; nothing else changes |
| Platform.SwitchBotPlatform.StoreAndRegisterOne | src/module.ts:128-129 | one loop step: the map gains or overwrites the device under its id, and the device's registration (if its type has one) is appended; the client and the poll timer are untouched |
| Platform.SwitchBotPlatform.StoreAndRegister | src/module.ts:127-130 | each device is stored under its id and then offered for registration, in list order |
| Platform.SwitchBotPlatform.StoreAndRegisterBody | src/module.ts:124-136 | physical devices first, then remotes, stopping where a list cannot be iterated |
| Platform.SwitchBotPlatform.DiscoverDevices | src/module.ts:108-142 | without a client, and on a thrown or rejected reply, nothing changes; otherwise every listed device is stored on top of the earlier ones and the supported ones are registered |
| Platform.SwitchBotPlatform.SendCommand | src/module.ts:318-336 | without a client nothing is sent; otherwise the command is posted to the device's commands endpoint, and success, rejection and thrown error are each only reported |
| Platform.SwitchBotPlatform.StartPolling | src/module.ts:379-391 | a timer runs with the configured period or 30 seconds |
| Platform.SwitchBotPlatform.StopPolling | src/module.ts:99-103 | shutdown leaves no timer running |

## Left out

- Concurrency: `updateAllDeviceStatuses` starts every refresh at once and waits with `Promise.allSettled`. It is modelled as a sequential loop over a snapshot of the keys, each key with its own reply and clock reading. Interleavings with a concurrent discovery are not modelled.
- Aliasing: records are modelled as values. An array returned by `getAllDevices` or `discoverDevices` that sees later in-place updates of `lastStatus`/`lastUpdated` is not modelled.
- `toLowerCase` is modelled on ASCII letters only. Device type names are ASCII.
- Floating point:
  - Brightness is computed exactly. With an integer level no tie arises, so `Math.round` of the double agrees.
  - A non-integer `pollInterval` is not modelled, nor a string or `NaN` value that JavaScript would coerce. The setting is an optional integer.
- HMAC-SHA256, base64, `Buffer`, `Date.now`, `new Date()`, `Math.random`, `fetch`, `JSON.stringify` and `response.json()` are inputs, not implementations.
- The shape of the device-list body is taken as given: each list is present (iterable) or absent.
- All logging calls.
- The Matter endpoint construction, cluster servers and command handlers (src/module.ts:195-316). Exceptions: the brightness arithmetic of the level handler, and the registration that each endpoint leads to. The host's `registerDevice` is recorded as a `Registration`, and its failures are not modelled.
- The lifecycle hooks `onStart`, `onConfigure` and `onChangeLoggerLevel`, the rest of `onShutdown`, and the version check in the constructor: they are host APIs.
- The platform's own `updateDeviceStatus` and `updateMatterDeviceState` (src/module.ts:338-377). On each poll `updateDeviceStatus` sends a signed `getDeviceStatus` request for the device, but it only logs the result. No state changes.
- `setInterval` and `clearInterval`: only the period of the running timer is kept. The polling callback is not modelled.
- `getScenes` and `executeScene`: only the requests they make are modelled.
- The contents of a device status (`lastStatus`) are an opaque JSON value.
- JSON numbers are modelled as integers. A fractional number in a vendor reply cannot be represented, but nothing in the modelled code reads one.
