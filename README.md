# MMM-Homematic-Thermostats, modelled in Dafny

MMM-Homematic-Thermostats is a MagicMirror² module. It shows the readings of
Homematic radiator thermostats (RT) and wall thermostats (WT), polled from a
CCU2 hub. This project models the module's display core:

- **Configuration resolver** (`readConfiguration`). It merges the global
  options with each device's overrides. A truthy override wins; anything
  else falls back to the global value. The result is one settings record per
  device id, plus a `"global"` record saying which columns some device asks
  for.
- **Attribute formatter** (`prepareAttribute`). It gives the number formatted
  to the configured precision, directly followed by the unit.
- **Control-mode interpreter** (`prepareControlMode`,
  `prepareControlModeOutput`). It turns the `CONTROL_MODE` code and the valve
  state into a mode text: AUTO, MANUAL, PARTY with its end date, or BOOST.
- **Fault-code interpreter** (`prepareFaultReporting`). It turns a
  `FAULT_REPORTING` code into a warning banner, or into nothing.
- **Device and batch renderer** (`prepareOutputForDevices`). It builds one
  markup entry per `deviceId: [snapshot]` pair of the hub's response, in
  response order. The first datapoint that is missing aborts the whole
  batch.

The files, one module each:

- `wrappers.dfy`: `Option` and `Result`.
- `js_values.dfy`: the JavaScript values a configuration holds. It models
  truthiness, `||`, the ToNumber coercion behind `<=`/`>=` and the string
  conversion behind `+`.
- `host.dfy`: the collaborators the core calls but does not define. These
  are the translation lookup, `toLocaleString`, moment's date formatting, and
  the number/string conversions. They are fields of `Env` and may be any
  functions, so every theorem holds whatever they return.
- `readings.dfy`: snapshots, datapoints, the response pairs, and the `Fault`
  that stands for the JavaScript TypeError thrown by a missing datapoint.
- `configuration.dfy`: the `defaults` block (`DEFAULT_OPTIONS`,
  `DEFAULT_CONFIG`) and `readConfiguration`. It is a method with a loop,
  proved against the function `Configuration`.
- `attributes.dfy`, `control_mode.dfy`, `fault_reporting.dfy`: the three pure
  formatters.
- `rendering.dfy`: the renderer.
  - The per-device loop body is the method pair `RenderDevice`/`BuildEntry`.
    It is proved equal to the function `DeviceEntry`.
  - The nested loops of `prepareOutputForDevices` are the method
    `PrepareOutputForDevices`. It is proved equal to `RenderAll` of the
    flattened response, and the abort and order behaviour is proved about
    `RenderAll`.

Behaviour of the code that the model keeps, some of it surprising:

- `SET_TEMPERATURE` is read for every device, so a snapshot without it
  aborts the batch (line 148).
- A control-mode code outside 0–3 shows the "radiator off" text whatever
  the valve (line 239). AUTO would show "heats with …" for an open valve and
  "radiator mode auto" for a wall thermostat. Only the unused
  `prepareControlMode` calls such a code AUTO.
- MANUAL's `valveState < 0` arm is never taken because `!== 0` is tested
  first (lines 254–256). As a result a wall thermostat in MANUAL shows
  "manual, heats with -".
- The fault banner is left out when the translated message is the empty
  string (line 336).
- A configured device whose id is `"global"` is overwritten by the summary
  record (line 100). If such a device is polled, its label renders as
  `undefined` and it shows no optional segment.

## Model

| member | source | states |
|---|---|---|
| JsValues.Truthy | MMM-Homematic-Thermostats.js:80-95 | `!!v`: the falsy values are exactly `undefined`, `false`, `0` and `""` |
| JsValues.Pick | MMM-Homematic-Thermostats.js:80-95 | the result is the override when that is truthy and the fallback otherwise; it is truthy iff either input is |
| JsValues.AtMost | MMM-Homematic-Thermostats.js:162-163 | JavaScript's `x <= v` for a number `x`: `v` is converted by ToNumber, and the comparison is false on NaN (also lines 176-177) |
| JsValues.AtLeast | MMM-Homematic-Thermostats.js:162-163 | JavaScript's `x >= v` for a number `x`: `v` is converted by ToNumber, and the comparison is false on NaN (also lines 176-177) |
| JsValues.ToNumber | MMM-Homematic-Thermostats.js:162-163 | a number converts to itself and `undefined` to NaN (the conversion behind the threshold comparisons) |
| JsValues.ToText | MMM-Homematic-Thermostats.js:158 | a string value is put into the markup unchanged |
| Configuration.DEFAULT_OPTIONS | MMM-Homematic-Thermostats.js:10-23 | the global option values of the `defaults` block |
| Configuration.DefaultsApply | MMM-Homematic-Thermostats.js:4-24 | under the defaults block a device that overrides nothing gets exactly the default options; a precision override of `0` is ignored in favour of 2, a truthy one is kept |
| Configuration.Merge | MMM-Homematic-Thermostats.js:80-95 | the 14 option assignments, each from the same key of the override and of the global options |
| Configuration.MergeGet | MMM-Homematic-Thermostats.js:80-95 | every one of the 14 options is resolved by the truthy-override-else-global rule on that same key |
| Configuration.Resolve | MMM-Homematic-Thermostats.js:74-95 | a device's record has its id; its label is kept when truthy and otherwise is ""; every option is the override when truthy, else the global value |
| Configuration.UntouchedDeviceGetsGlobalOptions | MMM-Homematic-Thermostats.js:80-95 | a device with no truthy override (a `0`, `false` or `""` included) gets exactly the global options |
| Configuration.Settings.Setting | MMM-Homematic-Thermostats.js:144-191 | reading `configurationSettings[deviceId][option]`: a device record gives its resolved option; the "global" record has none and gives `undefined` |
| Configuration.Settings.Label | MMM-Homematic-Thermostats.js:144 | reading `configDeviceLabel`: a device record gives its label, and the "global" record gives `undefined` |
| Configuration.SomeTruthy | MMM-Homematic-Thermostats.js:102-104 | `config.devices.some(device => !!device[k])`, over the devices from first to last |
| Configuration.SomeTruthyExists | MMM-Homematic-Thermostats.js:102-104 | `devices.some(d => !!d[k])` holds iff some device has a truthy `k` |
| Configuration.Summary | MMM-Homematic-Thermostats.js:100-105 | the "global" record has the actual-temperature column on and the humidity column off; the set-temperature and mode columns are truthy iff some device or the global option asks for them |
| Configuration.DeviceMap | MMM-Homematic-Thermostats.js:73-98 | the dictionary after the devices are stored in order, each under its id; its keys and values are stated by `DeviceMapKeys` and `LastDeviceWins` |
| Configuration.Configuration | MMM-Homematic-Thermostats.js:73-107 | what `readConfiguration` returns: the keys are "global" plus the device ids, and "global" holds the summary |
| Configuration.DeviceMapKeys | MMM-Homematic-Thermostats.js:73-98 | the stored keys are exactly the device ids |
| Configuration.LastDeviceWins | MMM-Homematic-Thermostats.js:97 | when ids repeat, the last device with an id determines that id's record |
| Configuration.ConfigurationLookup | MMM-Homematic-Thermostats.js:97-105 | every id other than "global" holds the resolved record of the last device with that id |
| Configuration.ReadConfiguration | MMM-Homematic-Thermostats.js:70-108 | the loop builds `Configuration(config)`: the keys are "global" plus the device ids, and "global" holds the summary |
| Attributes.PrepareAttribute | MMM-Homematic-Thermostats.js:208-221 | a known name present in the snapshot gives the formatted number followed by the unit; a known name that is missing aborts; any other name gives "" |
| Attributes.UnitIsSuffix | MMM-Homematic-Thermostats.js:217 | the unit ends the formatted text, with no separator and nothing after it |
| ControlMode.PrepareControlMode | MMM-Homematic-Thermostats.js:283-300 | codes 1, 2 and 3 give MANUAL, PARTY and BOOST, each iff; every other code gives AUTO |
| ControlMode.ValveReading | MMM-Homematic-Thermostats.js:229-238 | without VALVE_STATE the valve is -1 and shows "-"; with it, the valve is the value and shows the number followed by the unit |
| ControlMode.MissingPartyField | MMM-Homematic-Thermostats.js:263-267 | nothing is missing iff all three end-date datapoints are present; otherwise it is the first absent one in the order YEAR, MONTH, DAY |
| ControlMode.ModeText | MMM-Homematic-Thermostats.js:239-274 | the switch over the code, as written; each branch is stated by `AutoCases`, `ManualCases`, `PartyEndDate`, `BoostIgnoresValve` and `UnknownCodeIsOff` |
| ControlMode.PrepareControlModeOutput | MMM-Homematic-Thermostats.js:228-276 | aborts iff CONTROL_MODE is missing, or the code is 2 and an end-date datapoint is missing, and then with the first one missing in read order; for any other code the text is the mode switch applied to the valve reading |
| ControlMode.UnknownCodeIsOff | MMM-Homematic-Thermostats.js:239-300 | a code outside 0–3 shows "radiator off", although the classifier calls it AUTO |
| ControlMode.AutoCases | MMM-Homematic-Thermostats.js:242-251 | AUTO heats with an open valve, shows "radiator mode auto" with no valve, and shows off with a closed valve |
| ControlMode.ManualCases | MMM-Homematic-Thermostats.js:252-260 | MANUAL shows "manual, heats with" for any non-zero valve, -1 included, and off for 0; the `< 0` arm is never reached |
| ControlMode.WallThermostatManual | MMM-Homematic-Thermostats.js:229-260 | a wall thermostat in MANUAL shows "manual, heats with -" |
| ControlMode.PartyEndDate | MMM-Homematic-Thermostats.js:261-270 | PARTY shows "party mode until" and the date, built with the stored month decremented exactly once |
| ControlMode.BoostIgnoresValve | MMM-Homematic-Thermostats.js:271-273 | BOOST shows "boost mode" whatever the valve |
| FaultReporting.FaultKey | MMM-Homematic-Thermostats.js:314-333 | a code has a message key iff it is 1, 2, 3, 4, 6 or 7 |
| FaultReporting.FaultTable | MMM-Homematic-Thermostats.js:314-333 | the key of each fault code; codes 0 and 5 have none |
| FaultReporting.ErrorMessage | MMM-Homematic-Thermostats.js:309-334 | no record, or a code without a fault, gives no message |
| FaultReporting.PrepareFaultReporting | MMM-Homematic-Thermostats.js:308-340 | there is a banner iff there is a record whose code is a fault code with a non-empty translated message; the banner is the warning label and message in a `faultReporting` span |
| FaultReporting.NoBannerWithoutFault | MMM-Homematic-Thermostats.js:311-339 | a wall thermostat (no record) and a code without a fault show no banner |
| Rendering.DisplayLabel | MMM-Homematic-Thermostats.js:144-145 | the configured label unless it is "", in which case the hub's device name |
| Rendering.LabelFallsBackToName | MMM-Homematic-Thermostats.js:144-145 | for a configured device, the shown label is its truthy label, else the hub's name |
| Readings.IsRadiator | MMM-Homematic-Thermostats.js:142 | a snapshot is a radiator thermostat iff it reports VALVE_STATE, otherwise a wall thermostat |
| Rendering.Warns | MMM-Homematic-Thermostats.js:162-163 | the threshold rule: warn when the value is at or below an enabled low mark, or at or above an enabled high mark; it never fires with both flags falsy |
| Rendering.TempWarns | MMM-Homematic-Thermostats.js:162-163 | the threshold rule over the temperature settings |
| Rendering.HumWarns | MMM-Homematic-Thermostats.js:176-177 | the threshold rule over the humidity settings |
| Rendering.TempClass | MMM-Homematic-Thermostats.js:161-165 | the temperature span is "bright" in the warn colour exactly when an enabled threshold is reached |
| Rendering.ThresholdsInclusive | MMM-Homematic-Thermostats.js:162-163 | a value exactly on an enabled threshold warns |
| Rendering.NoWarningWhenDisabled | MMM-Homematic-Thermostats.js:162-163 | with both warn flags falsy nothing warns, whatever the value |
| Rendering.SetTemperatureSegment | MMM-Homematic-Thermostats.js:169-171 | the set-temperature segment is present iff the device shows the set temperature, and then it is the separator span and the set temperature's span |
| Rendering.HumidityClass | MMM-Homematic-Thermostats.js:175-179 | the humidity emphasis is present iff an enabled humidity threshold is reached |
| Rendering.HumiditySegment | MMM-Homematic-Thermostats.js:174-181 | the humidity segment is present iff the device shows humidity and is a wall thermostat; then it is the translated unit label and the humidity text, in an inner span emphasised in the warn colour exactly when the humidity rule fires on the humidity value |
| Rendering.ModeSegment | MMM-Homematic-Thermostats.js:184-186 | the mode segment is present iff the device shows its mode, and then it is the mode text in parentheses in a `deviceMode` span |
| Rendering.FaultSegment | MMM-Homematic-Thermostats.js:191-193 | the fault banner is appended iff the device shows fault reports |
| Rendering.EntryMarkup | MMM-Homematic-Thermostats.js:154-193 | an entry from its prepared parts: container, label, temperature, the optional set-temperature, humidity and mode segments, the closing tag, then the banner |
| Rendering.EntryShape | MMM-Homematic-Thermostats.js:155-193 | every entry opens with the container and the label span, and ends by closing the container, followed by the fault banner exactly when the device shows fault reports |
| Rendering.Humidity | MMM-Homematic-Thermostats.js:150-151 | there is a humidity reading iff the device is a wall thermostat; it is ACTUAL_HUMIDITY's value, and its text is that value formatted at the humidity precision followed by the unit |
| Rendering.FaultRecord | MMM-Homematic-Thermostats.js:152 | `device["FAULT_REPORTING"]`: the record when the snapshot has one, otherwise none |
| Rendering.EntryText | MMM-Homematic-Thermostats.js:146-193 | the entry built from a snapshot and its settings; its layout is stated by `EntryLayout` |
| Rendering.EntryLayout | MMM-Homematic-Thermostats.js:146-193 | a rendered entry is, in this order: the label; the ACTUAL_TEMPERATURE value at the temperature precision, emphasised by the temperature rule on that value; the SET_TEMPERATURE segment at the same precision; the humidity segment; the mode segment; the closing tag; then the fault banner |
| Rendering.MarkupLayout | MMM-Homematic-Thermostats.js:155-193 | the markup of an entry's parts, with the temperature span's class spelled out by the temperature warning rule |
| Rendering.DeviceEntry | MMM-Homematic-Thermostats.js:141-195 | an entry renders iff it has a snapshot, a settings record and its required datapoints; otherwise the fault is that of the first failing access in the source's order: no snapshot, unknown id, ACTUAL_TEMPERATURE, SET_TEMPERATURE, the control mode's datapoints, then a wall thermostat's ACTUAL_HUMIDITY |
| Rendering.RenderDevice | MMM-Homematic-Thermostats.js:141-195 | the loop body's datapoint reads and aborts give exactly `DeviceEntry` |
| Rendering.BuildEntry | MMM-Homematic-Thermostats.js:154-193 | growing the entry span by span gives exactly the markup of its parts |
| Rendering.SummaryReadAsDevice | MMM-Homematic-Thermostats.js:144-192 | a device read against the "global" record shows the label "undefined", no warning and no optional segment |
| Rendering.RenderAll | MMM-Homematic-Thermostats.js:137-199 | the batch: every entry in order, or the fault of the first entry that fails; its algebra is stated by the lemmas below |
| Rendering.Flatten | MMM-Homematic-Thermostats.js:139-140 | the order in which the loops visit the pairs: the response elements in order, and within each its pairs in order |
| Rendering.RenderAllEmpty | MMM-Homematic-Thermostats.js:137-199 | an empty response renders as "" |
| Rendering.RenderAllBase | MMM-Homematic-Thermostats.js:137-199 | a single pair renders as its device entry |
| Rendering.RenderAllAppend | MMM-Homematic-Thermostats.js:137-199 | rendering concatenated pairs is rendering each part in order: the output keeps the response order |
| Rendering.RenderAllFaults | MMM-Homematic-Thermostats.js:139-197 | the batch renders iff every pair does; otherwise its fault is that of the first pair that fails |
| Rendering.RenderAllAbort | MMM-Homematic-Thermostats.js:139-197 | once a pair fails, nothing after it changes the batch's result |
| Rendering.RenderAbortsAt | MMM-Homematic-Thermostats.js:139-197 | a fault met inside response element `i` is the fault of the whole response |
| Rendering.PrepareOutputForDevices | MMM-Homematic-Thermostats.js:136-200 | the nested loops compute `RenderAll` of all pairs in response order; an empty response gives "" |

## Left out

- The MagicMirror² lifecycle is not modelled: `getDom`, `start`, the poll
  timer, `moment.locale`, building the hub URL, and logging (lines 26–64).
  They are I/O and framework calls.
- `getDataFromCCU2`, `createPayloadForRequest`, `socketNotificationReceived`
  and the `moduleDisplay` buffer are not modelled (lines 55–64 and
  113–131). They only pass data to and from the node helper.
  `PrepareOutputForDevices` returns the result, and an `Err` stands for the
  TypeError that leaves the previous display in place.
- `getStyles`, `getScripts` and `getTranslations` are not modelled. They
  return constant file lists.
- The node helper and the translation files are not part of this model.
- Translation, `toLocaleString` with its precision and locale, moment's date
  formatting, and `String(n)`/`Number(s)` are `Env` parameters, not
  definitions. So rounding, e.g. 21.456 at precision 2 becomes "21.46", is
  not proved.
- Snapshot datapoint values are real numbers. Values the hub delivers as
  strings, the `Number(...)`/`parseFloat` coercion on them, and NaN are not
  modelled. This also leaves out that a string value compared with a string
  threshold would compare as text.
- A configured device without an `id` is not modelled: ids are strings.
  In the source such a device is stored under the key `"undefined"`
  (line 97), so two devices without an id overwrite each other.
- PrepareAttribute: `formatNumber` is total, so the model renders an entry
  whose precision `toLocaleString` rejects. Examples are a negative
  precision, one above the engine's limit, or one that is not a number, such
  as `precisionTemp: -1` or `"abc"`; both are truthy, so they are kept. The
  same goes for an invalid `localeStr`. In the source such a call raises a
  RangeError at line 217, and that aborts the batch like a missing
  datapoint. `DeviceEntry` and `RenderAllFaults` therefore call such an entry
  renderable.
- JavaScript's `null` is not told apart from `undefined` (`Absent`), and a
  configuration value that is an object or array is not modelled.
- `for (let deviceId in deviceData)` is taken to visit the pairs in the
  order of the sequence. JavaScript would list integer-like keys first.
- A pair's snapshot list is read only at index 0, as in the source; the rest
  of the list is ignored.
- `ccu2IP`, `xmlapiURL` and `updateInterval` from the `defaults` block are
  not in `DEFAULT_CONFIG`. Only the lifecycle reads them.
