/**
 * The configuration resolver: global defaults merged with per-device
 * overrides into one flat settings record per device, plus the "global"
 * column summary (readConfiguration).
 */
module Configuration {
  import opened JsValues

  /** The per-device options that can be overridden. */
  datatype Key =
    | ShowSetTemperature | ShowFaultReporting | ShowCurrentMode | PrecisionTemp
    | WarnTempHigh | WarnTempLow | TempThresholdHigh | TempThresholdLow
    | ShowHumidity | PrecisionHum | WarnHumHigh | WarnHumLow
    | HumThresholdHigh | HumThresholdLow

  /** One value per `Key`: the global options, a device's overrides, or the resolved settings. */
  datatype Options = Options(
    showSetTemperature: JsValue, showFaultReporting: JsValue, showCurrentMode: JsValue,
    precisionTemp: JsValue, warnTempHigh: JsValue, warnTempLow: JsValue,
    tempThresholdHigh: JsValue, tempThresholdLow: JsValue,
    showHumidity: JsValue, precisionHum: JsValue, warnHumHigh: JsValue, warnHumLow: JsValue,
    humThresholdHigh: JsValue, humThresholdLow: JsValue)
  {
    function Get(k: Key): JsValue {
      match k
      case ShowSetTemperature => showSetTemperature
      case ShowFaultReporting => showFaultReporting
      case ShowCurrentMode => showCurrentMode
      case PrecisionTemp => precisionTemp
      case WarnTempHigh => warnTempHigh
      case WarnTempLow => warnTempLow
      case TempThresholdHigh => tempThresholdHigh
      case TempThresholdLow => tempThresholdLow
      case ShowHumidity => showHumidity
      case PrecisionHum => precisionHum
      case WarnHumHigh => warnHumHigh
      case WarnHumLow => warnHumLow
      case HumThresholdHigh => humThresholdHigh
      case HumThresholdLow => humThresholdLow
    }
  }

  /** An entry of `config.devices`; options it does not set are `Absent`. */
  datatype DeviceOverride = DeviceOverride(id: string, deviceLabel: JsValue, options: Options)

  /** The part of the module configuration the core reads. */
  datatype ModuleConfig = ModuleConfig(devices: seq<DeviceOverride>, warnColor: string, options: Options)

  /** The module's `defaults` block. */
  const DEFAULT_OPTIONS := Options(
    Bool(false), Bool(false), Bool(false),
    Num(2.0), Bool(false), Bool(false),
    Num(24.0), Num(5.0),
    Bool(false), Num(0.0), Bool(false), Bool(false),
    Num(60.0), Num(35.0))

  const DEFAULT_CONFIG := ModuleConfig([], "red", DEFAULT_OPTIONS)

  /** A value of `configurationSettings`: a device's resolved record, or the "global" summary. */
  datatype Settings =
    | DeviceSettings(id: string, deviceLabel: JsValue, options: Options)
    | GlobalSummary(columnActTemp: bool, columnSetTemp: JsValue, columnHumidity: bool, columnMode: JsValue)
  {
    /** Reading a device option; the summary record has none, so it reads `undefined`. */
    function Setting(k: Key): JsValue {
      if DeviceSettings? then options.Get(k) else Absent
    }

    function Label(): JsValue {
      if DeviceSettings? then deviceLabel else Absent
    }
  }

  /** Options resolved field by field: a truthy override wins, anything else falls back. */
  function Merge(over: Options, fallback: Options): Options {
    Options(
      Pick(over.showSetTemperature, fallback.showSetTemperature),
      Pick(over.showFaultReporting, fallback.showFaultReporting),
      Pick(over.showCurrentMode, fallback.showCurrentMode),
      Pick(over.precisionTemp, fallback.precisionTemp),
      Pick(over.warnTempHigh, fallback.warnTempHigh),
      Pick(over.warnTempLow, fallback.warnTempLow),
      Pick(over.tempThresholdHigh, fallback.tempThresholdHigh),
      Pick(over.tempThresholdLow, fallback.tempThresholdLow),
      Pick(over.showHumidity, fallback.showHumidity),
      Pick(over.precisionHum, fallback.precisionHum),
      Pick(over.warnHumHigh, fallback.warnHumHigh),
      Pick(over.warnHumLow, fallback.warnHumLow),
      Pick(over.humThresholdHigh, fallback.humThresholdHigh),
      Pick(over.humThresholdLow, fallback.humThresholdLow))
  }

  /** Every key of the merged record holds the override when truthy, else the fallback. */
  lemma MergeGet(over: Options, fallback: Options)
    ensures forall k: Key :: Merge(over, fallback).Get(k) == Pick(over.Get(k), fallback.Get(k))
  {
    var r := Merge(over, fallback);
    forall k: Key ensures r.Get(k) == Pick(over.Get(k), fallback.Get(k)) {
      match k
      case ShowSetTemperature =>
      case ShowFaultReporting =>
      case ShowCurrentMode =>
      case PrecisionTemp =>
      case WarnTempHigh =>
      case WarnTempLow =>
      case TempThresholdHigh =>
      case TempThresholdLow =>
      case ShowHumidity =>
      case PrecisionHum =>
      case WarnHumHigh =>
      case WarnHumLow =>
      case HumThresholdHigh =>
      case HumThresholdLow =>
    }
  }

  /** The settings record built for one device. */
  function Resolve(config: ModuleConfig, device: DeviceOverride): (s: Settings)
    ensures s.DeviceSettings? && s.id == device.id
    ensures Truthy(device.deviceLabel) ==> s.deviceLabel == device.deviceLabel
    ensures !Truthy(device.deviceLabel) ==> s.deviceLabel == Str("")
    ensures forall k: Key :: s.Setting(k) == Pick(device.options.Get(k), config.options.Get(k))
    ensures forall k: Key :: Truthy(device.options.Get(k)) ==> s.Setting(k) == device.options.Get(k)
    ensures forall k: Key :: !Truthy(device.options.Get(k)) ==> s.Setting(k) == config.options.Get(k)
  {
    MergeGet(device.options, config.options);
    DeviceSettings(device.id, Pick(device.deviceLabel, Str("")), Merge(device.options, config.options))
  }

  /** The dictionary after the devices `ds` are stored in order, each under its id. */
  function DeviceMap(config: ModuleConfig, ds: seq<DeviceOverride>): map<string, Settings> {
    if ds == [] then map[]
    else DeviceMap(config, ds[..|ds| - 1])[ds[|ds| - 1].id := Resolve(config, ds[|ds| - 1])]
  }

  /** `devices.some(device => !!device[k])` */
  function SomeTruthy(ds: seq<DeviceOverride>, k: Key): bool {
    ds != [] && (Truthy(ds[0].options.Get(k)) || SomeTruthy(ds[1..], k))
  }

  lemma {:induction false} SomeTruthyExists(ds: seq<DeviceOverride>, k: Key)
    ensures SomeTruthy(ds, k) <==> exists i :: 0 <= i < |ds| && Truthy(ds[i].options.Get(k))
  {
    if ds != [] {
      SomeTruthyExists(ds[1..], k);
      if Truthy(ds[0].options.Get(k)) {
        assert 0 < |ds| && Truthy(ds[0].options.Get(k));
      } else {
        forall i | 0 <= i < |ds| && Truthy(ds[i].options.Get(k))
          ensures 0 <= i - 1 < |ds[1..]| && Truthy(ds[1..][i - 1].options.Get(k))
        {
          assert i != 0;
        }
        forall i | 0 <= i < |ds[1..]| && Truthy(ds[1..][i].options.Get(k))
          ensures Truthy(ds[i + 1].options.Get(k))
        {
        }
      }
    }
  }

  /** The "global" record: which columns some device, or the global options, ask for. */
  function Summary(config: ModuleConfig): (s: Settings)
    ensures s.GlobalSummary? && s.columnActTemp && !s.columnHumidity
    ensures Truthy(s.columnSetTemp) <==>
      (exists i :: 0 <= i < |config.devices| && Truthy(config.devices[i].options.showSetTemperature))
      || Truthy(config.options.showSetTemperature)
    ensures Truthy(s.columnMode) <==>
      (exists i :: 0 <= i < |config.devices| && Truthy(config.devices[i].options.showCurrentMode))
      || Truthy(config.options.showCurrentMode)
  {
    SomeTruthyExists(config.devices, ShowSetTemperature);
    SomeTruthyExists(config.devices, ShowCurrentMode);
    GlobalSummary(
      true,
      Pick(Bool(SomeTruthy(config.devices, ShowSetTemperature)), config.options.showSetTemperature),
      false,
      Pick(Bool(SomeTruthy(config.devices, ShowCurrentMode)), config.options.showCurrentMode))
  }

  /** What `readConfiguration(config)` returns. */
  function Configuration(config: ModuleConfig): (m: map<string, Settings>)
    ensures m.Keys == {"global"} + set i | 0 <= i < |config.devices| :: config.devices[i].id
    ensures m["global"] == Summary(config)
  {
    DeviceMapKeys(config, config.devices);
    DeviceMap(config, config.devices)["global" := Summary(config)]
  }

  /** The ids stored are exactly the ids of the devices. */
  lemma {:induction false} DeviceMapKeys(config: ModuleConfig, ds: seq<DeviceOverride>)
    ensures DeviceMap(config, ds).Keys == set i | 0 <= i < |ds| :: ds[i].id
  {
    if ds != [] {
      var init := ds[..|ds| - 1];
      DeviceMapKeys(config, init);
      var ids := set i | 0 <= i < |ds| :: ds[i].id;
      var initIds := set i | 0 <= i < |init| :: init[i].id;
      forall x | x in ids ensures x in initIds + {ds[|ds| - 1].id} {
        var i :| 0 <= i < |ds| && ds[i].id == x;
        if i < |init| { assert init[i].id == x; }
      }
      forall x | x in initIds ensures x in ids {
        var i :| 0 <= i < |init| && init[i].id == x;
        assert ds[i].id == x;
      }
    }
  }

  /** A later device with the same id replaces the earlier one. */
  lemma {:induction false} LastDeviceWins(config: ModuleConfig, ds: seq<DeviceOverride>, i: int)
    requires 0 <= i < |ds|
    requires forall j :: i < j < |ds| ==> ds[j].id != ds[i].id
    ensures ds[i].id in DeviceMap(config, ds)
    ensures DeviceMap(config, ds)[ds[i].id] == Resolve(config, ds[i])
  {
    if i < |ds| - 1 {
      var init := ds[..|ds| - 1];
      assert init[i] == ds[i];
      forall j | i < j < |init| ensures init[j].id != init[i].id {
        assert init[j] == ds[j];
      }
      LastDeviceWins(config, init, i);
    }
  }

  /** Every key holds the settings of the last device with that id, "global" the summary. */
  lemma ConfigurationLookup(config: ModuleConfig, i: int)
    requires 0 <= i < |config.devices|
    requires config.devices[i].id != "global"
    requires forall j :: i < j < |config.devices| ==> config.devices[j].id != config.devices[i].id
    ensures var m := Configuration(config);
      config.devices[i].id in m && m[config.devices[i].id] == Resolve(config, config.devices[i])
  {
    LastDeviceWins(config, config.devices, i);
  }

  /** Two option records that agree on every key are equal. */
  lemma OptionsExtensional(a: Options, b: Options)
    requires forall k: Key :: a.Get(k) == b.Get(k)
    ensures a == b
  {
    assert a.showSetTemperature == b.showSetTemperature by { assert a.Get(ShowSetTemperature) == b.Get(ShowSetTemperature); }
    assert a.showFaultReporting == b.showFaultReporting by { assert a.Get(ShowFaultReporting) == b.Get(ShowFaultReporting); }
    assert a.showCurrentMode == b.showCurrentMode by { assert a.Get(ShowCurrentMode) == b.Get(ShowCurrentMode); }
    assert a.precisionTemp == b.precisionTemp by { assert a.Get(PrecisionTemp) == b.Get(PrecisionTemp); }
    assert a.warnTempHigh == b.warnTempHigh by { assert a.Get(WarnTempHigh) == b.Get(WarnTempHigh); }
    assert a.warnTempLow == b.warnTempLow by { assert a.Get(WarnTempLow) == b.Get(WarnTempLow); }
    assert a.tempThresholdHigh == b.tempThresholdHigh by { assert a.Get(TempThresholdHigh) == b.Get(TempThresholdHigh); }
    assert a.tempThresholdLow == b.tempThresholdLow by { assert a.Get(TempThresholdLow) == b.Get(TempThresholdLow); }
    assert a.showHumidity == b.showHumidity by { assert a.Get(ShowHumidity) == b.Get(ShowHumidity); }
    assert a.precisionHum == b.precisionHum by { assert a.Get(PrecisionHum) == b.Get(PrecisionHum); }
    assert a.warnHumHigh == b.warnHumHigh by { assert a.Get(WarnHumHigh) == b.Get(WarnHumHigh); }
    assert a.warnHumLow == b.warnHumLow by { assert a.Get(WarnHumLow) == b.Get(WarnHumLow); }
    assert a.humThresholdHigh == b.humThresholdHigh by { assert a.Get(HumThresholdHigh) == b.Get(HumThresholdHigh); }
    assert a.humThresholdLow == b.humThresholdLow by { assert a.Get(HumThresholdLow) == b.Get(HumThresholdLow); }
  }

  /** A device that overrides nothing gets exactly the global options. */
  lemma UntouchedDeviceGetsGlobalOptions(config: ModuleConfig, device: DeviceOverride)
    requires forall k: Key :: !Truthy(device.options.Get(k))
    ensures Resolve(config, device).options == config.options
  {
    OptionsExtensional(Resolve(config, device).options, config.options);
  }

  /**
   * Under the defaults block: a device that overrides nothing gets exactly the
   * default options, a falsy precision override such as `0` is ignored in
   * favour of the default 2, and a truthy one is kept.
   */
  lemma DefaultsApply(device: DeviceOverride)
    ensures (forall k: Key :: !Truthy(device.options.Get(k))) ==> Resolve(DEFAULT_CONFIG, device).options == DEFAULT_OPTIONS
    ensures device.options.precisionTemp == Num(0.0) ==> Resolve(DEFAULT_CONFIG, device).Setting(PrecisionTemp) == Num(2.0)
    ensures Truthy(device.options.precisionTemp) ==>
      Resolve(DEFAULT_CONFIG, device).Setting(PrecisionTemp) == device.options.precisionTemp
  {
    if forall k: Key :: !Truthy(device.options.Get(k)) {
      UntouchedDeviceGetsGlobalOptions(DEFAULT_CONFIG, device);
    }
  }

  /** readConfiguration: fills the dictionary device by device, then sets "global". */
  method ReadConfiguration(config: ModuleConfig) returns (deviceSettings: map<string, Settings>)
    ensures deviceSettings == Configuration(config)
    ensures deviceSettings.Keys == {"global"} + set i | 0 <= i < |config.devices| :: config.devices[i].id
    ensures deviceSettings["global"] == Summary(config)
  {
    deviceSettings := map[];
    var i := 0;
    while i < |config.devices|
      invariant 0 <= i <= |config.devices|
      invariant deviceSettings == DeviceMap(config, config.devices[..i])
    {
      var device := config.devices[i];
      var settings := Resolve(config, device);
      assert config.devices[..i + 1][..i] == config.devices[..i];
      deviceSettings := deviceSettings[device.id := settings];
      i := i + 1;
    }
    assert config.devices[..i] == config.devices;
    DeviceMapKeys(config, config.devices);
    deviceSettings := deviceSettings["global" := Summary(config)];
  }
}
