/**
 * The device renderer and the batch renderer (prepareOutputForDevices):
 * one markup entry per polled device, concatenated in response order.
 */
module Rendering {
  import opened Wrappers
  import opened JsValues
  import opened Host
  import opened Readings
  import opened Configuration
  import opened Attributes
  import opened ControlMode
  import opened FaultReporting

  /** Markup fragments of a device entry. */
  const CONTAINER_OPEN := "<span class='deviceContainer'>"
  const LABEL_OPEN := "<span class='deviceLabel'>"
  const LABEL_CLOSE := ":&nbsp;</span>"
  const SET_TEMPERATURE_OPEN := "<span class='deviceLabel'>&nbsp;/&nbsp;</span><span class='deviceSetTemperature'>"
  const HUMIDITY_OPEN := "<span class='deviceHumidity'>&nbsp;("
  const HUMIDITY_CLOSE := "</span>)&nbsp;</span>"
  const MODE_OPEN := "<span class='deviceMode'>&nbsp;("
  const MODE_CLOSE := ")</span>"

  /** The threshold rule: warn when at or below the low mark, or at or above the high mark, if enabled. */
  predicate Warns(env: Env, warnLow: JsValue, x: real, low: JsValue, warnHigh: JsValue, high: JsValue)
    ensures Warns(env, warnLow, x, low, warnHigh, high) ==> Truthy(warnLow) || Truthy(warnHigh)
  {
    (Truthy(warnLow) && AtMost(x, low, env.stringToNumber))
    || (Truthy(warnHigh) && AtLeast(x, high, env.stringToNumber))
  }

  predicate TempWarns(env: Env, s: Settings, t: real) {
    Warns(env, s.Setting(WarnTempLow), t, s.Setting(TempThresholdLow), s.Setting(WarnTempHigh), s.Setting(TempThresholdHigh))
  }

  predicate HumWarns(env: Env, s: Settings, h: real) {
    Warns(env, s.Setting(WarnHumLow), h, s.Setting(HumThresholdLow), s.Setting(WarnHumHigh), s.Setting(HumThresholdHigh))
  }

  /** The configured label unless it is the empty string, else the hub-reported name. */
  function DisplayLabel(env: Env, s: Settings, deviceName: string): (shown: string)
    ensures s.Label() == Str("") ==> shown == deviceName
    ensures s.Label().Str? && s.Label() != Str("") ==> shown == s.Label().s
  {
    var configDeviceLabel := s.Label();
    if configDeviceLabel != Str("") then ToText(configDeviceLabel, env.numberToString) else deviceName
  }

  /** The class of the temperature span: emphasised in the warn colour exactly when the temperature warns. */
  function TempClass(env: Env, warnColor: string, s: Settings, t: real): (className: string)
    ensures TempWarns(env, s, t) ==> className == "deviceActualTemperature bright " + warnColor
    ensures !TempWarns(env, s, t) ==> className == "deviceActualTemperature"
  {
    var base := "deviceActualTemperature";
    if TempWarns(env, s, t) then
      assert base + " bright " + warnColor == "deviceActualTemperature bright " + warnColor;
      base + " bright " + warnColor
    else base
  }

  /** The class attribute of the inner humidity span: present exactly when the humidity warns. */
  function HumidityClass(env: Env, warnColor: string, s: Settings, h: real): (attribute: string)
    ensures attribute != "" <==> HumWarns(env, s, h)
  {
    if HumWarns(env, s, h) then " class='bright " + warnColor + "'" else ""
  }

  function SetTemperatureSegment(s: Settings, setTemperature: string): (segment: string)
    ensures segment != "" <==> Truthy(s.Setting(ShowSetTemperature))
    ensures segment != "" ==> segment == SET_TEMPERATURE_OPEN + setTemperature + "</span>"
  {
    if Truthy(s.Setting(ShowSetTemperature)) then
      SET_TEMPERATURE_OPEN + setTemperature + "</span>"
    else ""
  }

  /** The datapoints a snapshot must have for its entry to render. */
  predicate HasRequiredFields(env: Env, device: Snapshot) {
    var f := device.fields;
    && "ACTUAL_TEMPERATURE" in f
    && "SET_TEMPERATURE" in f
    && PrepareControlModeOutput(env, f).Ok?
    && (!IsRadiator(device) ==> "ACTUAL_HUMIDITY" in f)
  }

  /** The humidity segment: only for a wall thermostat (one with a humidity reading) whose settings show it. */
  function HumiditySegment(env: Env, warnColor: string, s: Settings, humidity: Option<(real, string)>): (segment: string)
    ensures segment != "" <==> Truthy(s.Setting(ShowHumidity)) && humidity.Some?
    ensures segment != "" ==>
      segment == HUMIDITY_OPEN + env.translate("UNIT_HUM") + ":&nbsp;" + "<span"
        + (if HumWarns(env, s, humidity.value.0) then " class='bright " + warnColor + "'" else "")
        + ">" + humidity.value.1 + HUMIDITY_CLOSE
  {
    if Truthy(s.Setting(ShowHumidity)) && humidity.Some? then
      var (actualHumidity, actualHumidityStr) := humidity.value;
      HUMIDITY_OPEN + env.translate("UNIT_HUM") + ":&nbsp;" + "<span"
        + HumidityClass(env, warnColor, s, actualHumidity) + ">" + actualHumidityStr + HUMIDITY_CLOSE
    else ""
  }

  function ModeSegment(s: Settings, currentMode: string): (segment: string)
    ensures segment != "" <==> Truthy(s.Setting(ShowCurrentMode))
    ensures segment != "" ==> segment == MODE_OPEN + currentMode + MODE_CLOSE
  {
    if Truthy(s.Setting(ShowCurrentMode)) then MODE_OPEN + currentMode + MODE_CLOSE else ""
  }

  function FaultSegment(s: Settings, faultMode: string): (segment: string)
    ensures Truthy(s.Setting(ShowFaultReporting)) ==> segment == faultMode
    ensures !Truthy(s.Setting(ShowFaultReporting)) ==> segment == ""
  {
    if Truthy(s.Setting(ShowFaultReporting)) then faultMode else ""
  }

  /** The markup of one device from its prepared parts: the container with its spans, then the fault banner. */
  function EntryMarkup(env: Env, warnColor: string, s: Settings, deviceLabel: string,
                       actualTemperature: real, actualTemperatureStr: string, setTemperature: string,
                       humidity: Option<(real, string)>, currentMode: string, faultMode: string): string
  {
    CONTAINER_OPEN
      + (LABEL_OPEN + deviceLabel + LABEL_CLOSE)
      + ("<span class='" + TempClass(env, warnColor, s, actualTemperature) + "'>" + actualTemperatureStr + "</span>")
      + SetTemperatureSegment(s, setTemperature)
      + HumiditySegment(env, warnColor, s, humidity)
      + ModeSegment(s, currentMode)
      + "</span>"
      + FaultSegment(s, faultMode)
  }

  /**
   * Every entry opens its container with the label span and ends by closing
   * the container, followed by the fault banner when the device shows it.
   */
  lemma EntryShape(env: Env, warnColor: string, s: Settings, deviceLabel: string,
                   actualTemperature: real, actualTemperatureStr: string, setTemperature: string,
                   humidity: Option<(real, string)>, currentMode: string, faultMode: string)
    ensures var m := EntryMarkup(env, warnColor, s, deviceLabel, actualTemperature, actualTemperatureStr,
        setTemperature, humidity, currentMode, faultMode);
      var head := CONTAINER_OPEN + (LABEL_OPEN + deviceLabel + LABEL_CLOSE);
      |head| <= |m| && m[..|head|] == head
    ensures !Truthy(s.Setting(ShowFaultReporting)) ==>
      var m := EntryMarkup(env, warnColor, s, deviceLabel, actualTemperature, actualTemperatureStr,
        setTemperature, humidity, currentMode, faultMode);
      |m| >= 7 && m[|m| - 7..] == "</span>"
    ensures Truthy(s.Setting(ShowFaultReporting)) ==>
      var m := EntryMarkup(env, warnColor, s, deviceLabel, actualTemperature, actualTemperatureStr,
        setTemperature, humidity, currentMode, faultMode);
      |m| >= 7 + |faultMode| && m[|m| - 7 - |faultMode|..] == "</span>" + faultMode
  {
    var head := CONTAINER_OPEN + (LABEL_OPEN + deviceLabel + LABEL_CLOSE);
    var withTemp := head + ("<span class='" + TempClass(env, warnColor, s, actualTemperature) + "'>" + actualTemperatureStr + "</span>");
    var withSet := withTemp + SetTemperatureSegment(s, setTemperature);
    var withHum := withSet + HumiditySegment(env, warnColor, s, humidity);
    var withMode := withHum + ModeSegment(s, currentMode);
    var closed := withMode + "</span>";
    var m := closed + FaultSegment(s, faultMode);
    assert m == EntryMarkup(env, warnColor, s, deviceLabel, actualTemperature, actualTemperatureStr,
      setTemperature, humidity, currentMode, faultMode);
    PrefixExtends(head, head, withTemp[|head|..]);
    PrefixExtends(withTemp, head, withSet[|withTemp|..]);
    PrefixExtends(withSet, head, withHum[|withSet|..]);
    PrefixExtends(withHum, head, withMode[|withHum|..]);
    PrefixExtends(withMode, head, "</span>");
    PrefixExtends(closed, head, FaultSegment(s, faultMode));
    if !Truthy(s.Setting(ShowFaultReporting)) {
      EndsWith(withMode, "</span>", "");
      assert m == closed + "";
    } else {
      EndsWith(withMode, "</span>", faultMode);
    }
  }

  /** `(a + t) + f` ends with `t + f`. */
  lemma EndsWith(a: string, t: string, f: string)
    ensures |(a + t) + f| >= |t| + |f| && ((a + t) + f)[|(a + t) + f| - |t| - |f|..] == t + f
  {
    assert (a + t) + f == a + (t + f);
  }

  /** A prefix of `a` stays a prefix after anything is appended to `a`. */
  lemma PrefixExtends(a: string, p: string, b: string)
    requires |p| <= |a| && a[..|p|] == p
    ensures |p| <= |a + b| && (a + b)[..|p|] == p
  {
    assert (a + b)[..|p|] == a[..|p|];
  }

  function FaultRecord(device: Snapshot): (record: Option<Attr>)
    ensures record.Some? <==> "FAULT_REPORTING" in device.fields
    ensures record.Some? ==> record.value == device.fields["FAULT_REPORTING"]
  {
    if "FAULT_REPORTING" in device.fields then Some(device.fields["FAULT_REPORTING"]) else None
  }

  /** A wall thermostat's humidity value and its formatted text; a radiator thermostat has none. */
  function Humidity(env: Env, s: Settings, device: Snapshot): (humidity: Option<(real, string)>)
    requires !IsRadiator(device) ==> "ACTUAL_HUMIDITY" in device.fields
    ensures humidity.Some? <==> !IsRadiator(device)
    ensures humidity.Some? ==> humidity.value == (device.fields["ACTUAL_HUMIDITY"].value,
      env.formatNumber(device.fields["ACTUAL_HUMIDITY"].value, s.Setting(PrecisionHum)) + device.fields["ACTUAL_HUMIDITY"].unit)
  {
    if IsRadiator(device) then None
    else
      var f := device.fields;
      Some((f["ACTUAL_HUMIDITY"].value, PrepareAttribute(env, "ACTUAL_HUMIDITY", f, s.Setting(PrecisionHum)).value))
  }

  /** The markup of one device whose datapoints are all there. */
  function EntryText(env: Env, warnColor: string, s: Settings, device: Snapshot): string
    requires HasRequiredFields(env, device)
  {
    var f := device.fields;
    EntryMarkup(env, warnColor, s, DisplayLabel(env, s, device.deviceName),
      f["ACTUAL_TEMPERATURE"].value,
      PrepareAttribute(env, "ACTUAL_TEMPERATURE", f, s.Setting(PrecisionTemp)).value,
      PrepareAttribute(env, "SET_TEMPERATURE", f, s.Setting(PrecisionTemp)).value,
      Humidity(env, s, device),
      PrepareControlModeOutput(env, f).value,
      PrepareFaultReporting(env, FaultRecord(device)))
  }

  /**
   * The layout of a rendered entry: the label; the ACTUAL_TEMPERATURE value at
   * the temperature precision, emphasised by the temperature rule on that
   * value; then the SET_TEMPERATURE segment at the same precision, the
   * humidity segment, the mode segment, the container's closing tag and the
   * fault banner, in that order.
   */
  lemma EntryLayout(env: Env, warnColor: string, s: Settings, device: Snapshot)
    requires HasRequiredFields(env, device)
    ensures var f := device.fields;
      var t := f["ACTUAL_TEMPERATURE"].value;
      EntryText(env, warnColor, s, device)
        == CONTAINER_OPEN
          + (LABEL_OPEN + DisplayLabel(env, s, device.deviceName) + LABEL_CLOSE)
          + ("<span class='"
             + (if TempWarns(env, s, t) then "deviceActualTemperature bright " + warnColor else "deviceActualTemperature")
             + "'>" + (env.formatNumber(t, s.Setting(PrecisionTemp)) + f["ACTUAL_TEMPERATURE"].unit) + "</span>")
          + SetTemperatureSegment(s, env.formatNumber(f["SET_TEMPERATURE"].value, s.Setting(PrecisionTemp)) + f["SET_TEMPERATURE"].unit)
          + HumiditySegment(env, warnColor, s, Humidity(env, s, device))
          + ModeSegment(s, PrepareControlModeOutput(env, f).value)
          + "</span>"
          + FaultSegment(s, PrepareFaultReporting(env, FaultRecord(device)))
  {
    var f := device.fields;
    var t := f["ACTUAL_TEMPERATURE"].value;
    var actualTemperatureStr := PrepareAttribute(env, "ACTUAL_TEMPERATURE", f, s.Setting(PrecisionTemp)).value;
    var setTemperature := PrepareAttribute(env, "SET_TEMPERATURE", f, s.Setting(PrecisionTemp)).value;
    assert actualTemperatureStr == env.formatNumber(t, s.Setting(PrecisionTemp)) + f["ACTUAL_TEMPERATURE"].unit;
    assert setTemperature == env.formatNumber(f["SET_TEMPERATURE"].value, s.Setting(PrecisionTemp)) + f["SET_TEMPERATURE"].unit;
    MarkupLayout(env, warnColor, s, DisplayLabel(env, s, device.deviceName), t, actualTemperatureStr, setTemperature,
      Humidity(env, s, device), PrepareControlModeOutput(env, f).value, PrepareFaultReporting(env, FaultRecord(device)));
  }

  /** `EntryMarkup` with the temperature class spelled out by the temperature rule. */
  lemma MarkupLayout(env: Env, warnColor: string, s: Settings, deviceLabel: string,
                     actualTemperature: real, actualTemperatureStr: string, setTemperature: string,
                     humidity: Option<(real, string)>, currentMode: string, faultMode: string)
    ensures EntryMarkup(env, warnColor, s, deviceLabel, actualTemperature, actualTemperatureStr,
        setTemperature, humidity, currentMode, faultMode)
      == CONTAINER_OPEN
        + (LABEL_OPEN + deviceLabel + LABEL_CLOSE)
        + ("<span class='"
           + (if TempWarns(env, s, actualTemperature) then "deviceActualTemperature bright " + warnColor else "deviceActualTemperature")
           + "'>" + actualTemperatureStr + "</span>")
        + SetTemperatureSegment(s, setTemperature)
        + HumiditySegment(env, warnColor, s, humidity)
        + ModeSegment(s, currentMode)
        + "</span>"
        + FaultSegment(s, faultMode)
  {
  }

  /** Everything an entry needs: a reading, a settings record for its id, the datapoints read. */
  predicate Renderable(env: Env, settings: map<string, Settings>, entry: Keyed) {
    |entry.readings| > 0 && entry.id in settings && HasRequiredFields(env, entry.readings[0])
  }

  /**
   * The entry of one `deviceId: [snapshot]` pair, or the fault of the first
   * access that fails, in the order the source makes them.
   */
  function DeviceEntry(env: Env, warnColor: string, settings: map<string, Settings>, entry: Keyed): (r: Result<string, Fault>)
    ensures r.Ok? <==> Renderable(env, settings, entry)
    ensures |entry.readings| == 0 ==> r == Err(NoReading(entry.id))
    ensures |entry.readings| > 0 && entry.id !in settings ==> r == Err(UnknownDevice(entry.id))
    ensures |entry.readings| > 0 && entry.id in settings && "ACTUAL_TEMPERATURE" !in entry.readings[0].fields ==>
      r == Err(MissingField("ACTUAL_TEMPERATURE"))
    ensures (|entry.readings| > 0 && entry.id in settings && "ACTUAL_TEMPERATURE" in entry.readings[0].fields
      && "SET_TEMPERATURE" !in entry.readings[0].fields) ==> r == Err(MissingField("SET_TEMPERATURE"))
    ensures (|entry.readings| > 0 && entry.id in settings && "ACTUAL_TEMPERATURE" in entry.readings[0].fields
      && "SET_TEMPERATURE" in entry.readings[0].fields && PrepareControlModeOutput(env, entry.readings[0].fields).Err?)
      ==> r == Err(PrepareControlModeOutput(env, entry.readings[0].fields).error)
    ensures (|entry.readings| > 0 && entry.id in settings && "ACTUAL_TEMPERATURE" in entry.readings[0].fields
      && "SET_TEMPERATURE" in entry.readings[0].fields && PrepareControlModeOutput(env, entry.readings[0].fields).Ok?
      && !IsRadiator(entry.readings[0]) && "ACTUAL_HUMIDITY" !in entry.readings[0].fields)
      ==> r == Err(MissingField("ACTUAL_HUMIDITY"))
    ensures r.Ok? ==> r.value == EntryText(env, warnColor, settings[entry.id], entry.readings[0])
  {
    if |entry.readings| == 0 then Err(NoReading(entry.id))
    else if entry.id !in settings then Err(UnknownDevice(entry.id))
    else
      var device := entry.readings[0];
      var f := device.fields;
      if "ACTUAL_TEMPERATURE" !in f then Err(MissingField("ACTUAL_TEMPERATURE"))
      else if "SET_TEMPERATURE" !in f then Err(MissingField("SET_TEMPERATURE"))
      else if PrepareControlModeOutput(env, f).Err? then Err(PrepareControlModeOutput(env, f).error)
      else if !IsRadiator(device) && "ACTUAL_HUMIDITY" !in f then Err(MissingField("ACTUAL_HUMIDITY"))
      else Ok(EntryText(env, warnColor, settings[entry.id], device))
  }

  /** The inner loop body, first half: reads the datapoints, aborting on the first one missing. */
  method RenderDevice(env: Env, warnColor: string, settings: map<string, Settings>, entry: Keyed)
    returns (r: Result<string, Fault>)
    ensures r == DeviceEntry(env, warnColor, settings, entry)
  {
    if |entry.readings| == 0 {
      return Err(NoReading(entry.id));
    }
    var device := entry.readings[0];
    var isRadiator := "VALVE_STATE" in device.fields;
    if entry.id !in settings {
      return Err(UnknownDevice(entry.id));
    }
    var s := settings[entry.id];
    var configDeviceLabel := s.Label();
    var deviceLabel := if configDeviceLabel != Str("") then ToText(configDeviceLabel, env.numberToString) else device.deviceName;
    var actualTemperatureStr :- PrepareAttribute(env, "ACTUAL_TEMPERATURE", device.fields, s.Setting(PrecisionTemp));
    var actualTemperature := device.fields["ACTUAL_TEMPERATURE"].value;
    var setTemperature :- PrepareAttribute(env, "SET_TEMPERATURE", device.fields, s.Setting(PrecisionTemp));
    var currentMode :- PrepareControlModeOutput(env, device.fields);
    var humidity: Option<(real, string)> := None;
    if !isRadiator {
      var actualHumidityStr :- PrepareAttribute(env, "ACTUAL_HUMIDITY", device.fields, s.Setting(PrecisionHum));
      humidity := Some((device.fields["ACTUAL_HUMIDITY"].value, actualHumidityStr));
    }
    var faultMode := PrepareFaultReporting(env, FaultRecord(device));
    var html := BuildEntry(env, warnColor, s, deviceLabel, actualTemperature, actualTemperatureStr,
      setTemperature, humidity, currentMode, faultMode);
    return Ok(html);
  }

  /** The inner loop body, second half: grows the entry span by span. */
  method BuildEntry(env: Env, warnColor: string, s: Settings, deviceLabel: string,
                    actualTemperature: real, actualTemperatureStr: string, setTemperature: string,
                    humidity: Option<(real, string)>, currentMode: string, faultMode: string)
    returns (htmlDeviceEntry: string)
    ensures htmlDeviceEntry == EntryMarkup(env, warnColor, s, deviceLabel, actualTemperature, actualTemperatureStr,
      setTemperature, humidity, currentMode, faultMode)
  {
    var classNameStr := "";
    htmlDeviceEntry := CONTAINER_OPEN;
    htmlDeviceEntry := htmlDeviceEntry + (LABEL_OPEN + deviceLabel + LABEL_CLOSE);

    classNameStr := "deviceActualTemperature";
    if TempWarns(env, s, actualTemperature) {
      classNameStr := classNameStr + " bright " + warnColor;
    }
    assert classNameStr == TempClass(env, warnColor, s, actualTemperature);
    htmlDeviceEntry := htmlDeviceEntry + ("<span class='" + classNameStr + "'>" + actualTemperatureStr + "</span>");
    var withTemp := htmlDeviceEntry;

    if Truthy(s.Setting(ShowSetTemperature)) {
      htmlDeviceEntry := htmlDeviceEntry
        + (SET_TEMPERATURE_OPEN + setTemperature + "</span>");
    }
    assert htmlDeviceEntry == withTemp + SetTemperatureSegment(s, setTemperature);
    var withSet := htmlDeviceEntry;

    if Truthy(s.Setting(ShowHumidity)) && humidity.Some? {
      var (actualHumidity, actualHumidityStr) := humidity.value;
      classNameStr := "";
      if HumWarns(env, s, actualHumidity) {
        classNameStr := " class='bright " + warnColor + "'";
      }
      htmlDeviceEntry := htmlDeviceEntry + (HUMIDITY_OPEN + env.translate("UNIT_HUM") + ":&nbsp;"
        + "<span" + classNameStr + ">" + actualHumidityStr + HUMIDITY_CLOSE);
    }
    assert htmlDeviceEntry == withSet + HumiditySegment(env, warnColor, s, humidity);
    var withHum := htmlDeviceEntry;

    if Truthy(s.Setting(ShowCurrentMode)) {
      htmlDeviceEntry := htmlDeviceEntry + (MODE_OPEN + currentMode + MODE_CLOSE);
    }
    assert htmlDeviceEntry == withHum + ModeSegment(s, currentMode);

    htmlDeviceEntry := htmlDeviceEntry + "</span>";
    var closed := htmlDeviceEntry;

    if Truthy(s.Setting(ShowFaultReporting)) {
      htmlDeviceEntry := htmlDeviceEntry + faultMode;
    }
    assert htmlDeviceEntry == closed + FaultSegment(s, faultMode);
  }

  /** The pairs of all response elements, in response order. */
  function Flatten(response: seq<seq<Keyed>>): (entries: seq<Keyed>) {
    if response == [] then []
    else Flatten(response[..|response| - 1]) + response[|response| - 1]
  }

  lemma {:induction false} FlattenAppend(a: seq<seq<Keyed>>, b: seq<seq<Keyed>>)
    ensures Flatten(a + b) == Flatten(a) + Flatten(b)
    decreases |b|
  {
    if b == [] {
      assert a + b == a;
    } else {
      var init := b[..|b| - 1];
      assert (a + b)[..|a + b| - 1] == a + init;
      FlattenAppend(a, init);
      assert Flatten(b) == Flatten(init) + b[|b| - 1];
    }
  }

  /** Sequencing two render passes: the first fault wins, otherwise the outputs concatenate. */
  function Then(first: Result<string, Fault>, second: Result<string, Fault>): Result<string, Fault> {
    if first.Err? then first
    else if second.Err? then second
    else Ok(first.value + second.value)
  }

  /** Running entry results in order: the first fault aborts, otherwise the texts concatenate. */
  function Outcome(results: seq<Result<string, Fault>>): Result<string, Fault> {
    if results == [] then Ok("")
    else Then(Outcome(results[..|results| - 1]), results[|results| - 1])
  }

  lemma {:induction false} OutcomeAppend(a: seq<Result<string, Fault>>, b: seq<Result<string, Fault>>)
    ensures Outcome(a + b) == Then(Outcome(a), Outcome(b))
    decreases |b|
  {
    if b == [] {
      assert a + b == a;
      if Outcome(a).Ok? {
        assert Outcome(a).value + "" == Outcome(a).value;
      }
    } else {
      var init := b[..|b| - 1];
      assert (a + b)[..|a + b| - 1] == a + init;
      assert (a + b)[|a + b| - 1] == b[|b| - 1];
      OutcomeAppend(a, init);
      var oa, oi, last := Outcome(a), Outcome(init), b[|b| - 1];
      if oa.Ok? && oi.Ok? && last.Ok? {
        assert oa.value + oi.value + last.value == oa.value + (oi.value + last.value);
      }
    }
  }

  lemma {:induction false} OutcomeFaults(results: seq<Result<string, Fault>>)
    ensures Outcome(results).Ok? <==> forall i :: 0 <= i < |results| ==> results[i].Ok?
    ensures Outcome(results).Err? ==>
      exists i :: 0 <= i < |results| && (forall j :: 0 <= j < i ==> results[j].Ok?) && results[i] == Outcome(results)
    decreases |results|
  {
    if results != [] {
      var init := results[..|results| - 1];
      OutcomeFaults(init);
      assert forall j :: 0 <= j < |init| ==> results[j] == init[j];
      if Outcome(init).Err? {
        var i :| 0 <= i < |init| && (forall j :: 0 <= j < i ==> init[j].Ok?) && init[i] == Outcome(init);
        assert results[i] == init[i];
      }
    }
  }

  /** The result of each pair's entry, in order. */
  function EntryResults(env: Env, warnColor: string, settings: map<string, Settings>, entries: seq<Keyed>)
    : (results: seq<Result<string, Fault>>)
    ensures |results| == |entries|
    ensures forall i :: 0 <= i < |entries| ==> results[i] == DeviceEntry(env, warnColor, settings, entries[i])
  {
    seq(|entries|, i requires 0 <= i < |entries| => DeviceEntry(env, warnColor, settings, entries[i]))
  }

  /** The batch: every entry in order, or the fault of the first entry that fails. */
  function RenderAll(env: Env, warnColor: string, settings: map<string, Settings>, entries: seq<Keyed>): Result<string, Fault> {
    Outcome(EntryResults(env, warnColor, settings, entries))
  }

  /** Rendering a concatenation is rendering the parts in order. */
  lemma RenderAllAppend(env: Env, warnColor: string, settings: map<string, Settings>, a: seq<Keyed>, b: seq<Keyed>)
    ensures RenderAll(env, warnColor, settings, a + b)
      == Then(RenderAll(env, warnColor, settings, a), RenderAll(env, warnColor, settings, b))
  {
    var ra, rb := EntryResults(env, warnColor, settings, a), EntryResults(env, warnColor, settings, b);
    assert EntryResults(env, warnColor, settings, a + b) == ra + rb;
    OutcomeAppend(ra, rb);
  }

  /** No pairs render as nothing. */
  lemma RenderAllEmpty(env: Env, warnColor: string, settings: map<string, Settings>)
    ensures RenderAll(env, warnColor, settings, []) == Ok("")
  {
  }

  /** A single pair renders as its device entry. */
  lemma RenderAllBase(env: Env, warnColor: string, settings: map<string, Settings>, entry: Keyed)
    ensures RenderAll(env, warnColor, settings, [entry]) == DeviceEntry(env, warnColor, settings, entry)
  {
    var rs := EntryResults(env, warnColor, settings, [entry]);
    assert rs[..0] == [];
    RenderAllEmpty(env, warnColor, settings);
    var e := DeviceEntry(env, warnColor, settings, entry);
    if e.Ok? {
      assert "" + e.value == e.value;
    }
  }

  /**
   * The batch renders exactly when every entry does; otherwise its fault is
   * that of the first entry that fails.
   */
  lemma RenderAllFaults(env: Env, warnColor: string, settings: map<string, Settings>, entries: seq<Keyed>)
    ensures RenderAll(env, warnColor, settings, entries).Ok?
      <==> forall i :: 0 <= i < |entries| ==> Renderable(env, settings, entries[i])
    ensures RenderAll(env, warnColor, settings, entries).Err? ==>
      exists i :: 0 <= i < |entries|
        && (forall j :: 0 <= j < i ==> Renderable(env, settings, entries[j]))
        && DeviceEntry(env, warnColor, settings, entries[i]) == RenderAll(env, warnColor, settings, entries)
  {
    var rs := EntryResults(env, warnColor, settings, entries);
    OutcomeFaults(rs);
  }

  /** A fault stops the batch: nothing after it changes the result. */
  lemma RenderAllAbort(env: Env, warnColor: string, settings: map<string, Settings>, a: seq<Keyed>, b: seq<Keyed>)
    requires RenderAll(env, warnColor, settings, a).Err?
    ensures RenderAll(env, warnColor, settings, a + b) == RenderAll(env, warnColor, settings, a)
  {
    RenderAllAppend(env, warnColor, settings, a, b);
  }

  lemma FlattenPrefix(response: seq<seq<Keyed>>, i: int)
    requires 0 <= i < |response|
    ensures Flatten(response[..i + 1]) == Flatten(response[..i]) + response[i]
  {
    assert response[..i + 1][..i] == response[..i];
  }

  /** Rendering one more pair of a response element. */
  lemma RenderStep(env: Env, warnColor: string, settings: map<string, Settings>, done: seq<Keyed>, deviceData: seq<Keyed>, j: int)
    requires 0 <= j < |deviceData|
    ensures RenderAll(env, warnColor, settings, done + deviceData[..j + 1])
      == Then(RenderAll(env, warnColor, settings, done + deviceData[..j]), DeviceEntry(env, warnColor, settings, deviceData[j]))
  {
    assert deviceData[..j + 1] == deviceData[..j] + [deviceData[j]];
    assert done + deviceData[..j + 1] == (done + deviceData[..j]) + [deviceData[j]];
    RenderAllAppend(env, warnColor, settings, done + deviceData[..j], [deviceData[j]]);
    RenderAllBase(env, warnColor, settings, deviceData[j]);
  }

  /** A fault at pair `j` of element `i` is the fault of the whole response. */
  lemma RenderAbortsAt(env: Env, warnColor: string, settings: map<string, Settings>, response: seq<seq<Keyed>>, i: int, j: int)
    requires 0 <= i < |response| && 0 <= j < |response[i]|
    requires RenderAll(env, warnColor, settings, Flatten(response[..i]) + response[i][..j + 1]).Err?
    ensures RenderAll(env, warnColor, settings, Flatten(response))
      == RenderAll(env, warnColor, settings, Flatten(response[..i]) + response[i][..j + 1])
  {
    FlattenSplit(response, i, j);
    RenderAllAbort(env, warnColor, settings, Flatten(response[..i]) + response[i][..j + 1],
      response[i][j + 1..] + Flatten(response[i + 1..]));
  }

  /** The flattened response cut just after pair `j` of element `i`. */
  lemma FlattenSplit(response: seq<seq<Keyed>>, i: int, j: int)
    requires 0 <= i < |response| && 0 <= j < |response[i]|
    ensures Flatten(response)
      == (Flatten(response[..i]) + response[i][..j + 1]) + (response[i][j + 1..] + Flatten(response[i + 1..]))
  {
    FlattenAppend(response[..i + 1], response[i + 1..]);
    assert response[..i + 1] + response[i + 1..] == response;
    FlattenPrefix(response, i);
    assert response[i] == response[i][..j + 1] + response[i][j + 1..];
  }

  /**
   * prepareOutputForDevices: walks the response elements and, inside each,
   * its pairs, appending each device's entry to the output. `warnColor` is
   * the module configuration's `warnColor`, and `settings` is what
   * `ReadConfiguration` returned for that configuration.
   */
  method PrepareOutputForDevices(env: Env, warnColor: string, settings: map<string, Settings>, response: seq<seq<Keyed>>)
    returns (r: Result<string, Fault>)
    ensures r == RenderAll(env, warnColor, settings, Flatten(response))
    ensures response == [] ==> r == Ok("")
  {
    var htmlOutput := "";
    var i := 0;
    while i < |response|
      invariant 0 <= i <= |response|
      invariant RenderAll(env, warnColor, settings, Flatten(response[..i])) == Ok(htmlOutput)
    {
      var deviceData := response[i];
      var done := Flatten(response[..i]);
      var j := 0;
      assert done + deviceData[..0] == done;
      while j < |deviceData|
        invariant 0 <= j <= |deviceData|
        invariant RenderAll(env, warnColor, settings, done + deviceData[..j]) == Ok(htmlOutput)
      {
        var htmlDeviceEntry := RenderDevice(env, warnColor, settings, deviceData[j]);
        RenderStep(env, warnColor, settings, done, deviceData, j);
        if htmlDeviceEntry.Err? {
          RenderAbortsAt(env, warnColor, settings, response, i, j);
          return Err(htmlDeviceEntry.error);
        }
        htmlOutput := htmlOutput + htmlDeviceEntry.value;
        j := j + 1;
      }
      assert deviceData[..j] == deviceData;
      FlattenPrefix(response, i);
      i := i + 1;
    }
    assert response[..i] == response;
    RenderAllEmpty(env, warnColor, settings);
    return Ok(htmlOutput);
  }

  /** The label shown for a configured device: its label when one is given, else the hub's name. */
  lemma LabelFallsBackToName(env: Env, config: ModuleConfig, device: DeviceOverride, deviceName: string)
    ensures DisplayLabel(env, Resolve(config, device), deviceName)
      == if Truthy(device.deviceLabel) then ToText(device.deviceLabel, env.numberToString) else deviceName
  {
  }

  /** Both thresholds are inclusive: a value exactly on an enabled mark warns. */
  lemma ThresholdsInclusive(env: Env, warnLow: JsValue, x: real, warnHigh: JsValue, other: JsValue)
    ensures Truthy(warnLow) ==> Warns(env, warnLow, x, Num(x), warnHigh, other)
    ensures Truthy(warnHigh) ==> Warns(env, warnLow, x, other, warnHigh, Num(x))
  {
  }

  /** With both warnings disabled nothing warns, whatever the value. */
  lemma NoWarningWhenDisabled(env: Env, warnLow: JsValue, x: real, low: JsValue, warnHigh: JsValue, high: JsValue)
    requires !Truthy(warnLow) && !Truthy(warnHigh)
    ensures !Warns(env, warnLow, x, low, warnHigh, high)
  {
  }

  /**
   * A device whose id is "global" reads the summary record: its label prints
   * as "undefined" and it shows no optional segment and no warning.
   */
  lemma SummaryReadAsDevice(env: Env, warnColor: string, s: Settings, device: Snapshot, t: real, text: string,
                            humidity: Option<(real, string)>)
    requires s.GlobalSummary?
    ensures DisplayLabel(env, s, device.deviceName) == "undefined"
    ensures TempClass(env, warnColor, s, t) == "deviceActualTemperature"
    ensures SetTemperatureSegment(s, text) == "" && ModeSegment(s, text) == "" && FaultSegment(s, text) == ""
    ensures HumiditySegment(env, warnColor, s, humidity) == ""
  {
  }
}
