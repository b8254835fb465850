/** The control-mode interpreter (prepareControlMode, prepareControlModeOutput). */
module ControlMode {
  import opened Wrappers
  import opened Host
  import opened Readings

  datatype Mode = Auto | Manual | Party | Boost {
    /** The name used in the translation keys `RADIATOR_MODE_<name>`. */
    function Name(): string {
      match this
      case Auto => "AUTO"
      case Manual => "MANUAL"
      case Party => "PARTY"
      case Boost => "BOOST"
    }
  }

  /** prepareControlMode: codes 1, 2, 3 name their modes; every other code is AUTO. */
  function PrepareControlMode(controlModeParameter: Attr): (m: Mode)
    ensures m == Manual <==> controlModeParameter.value == 1.0
    ensures m == Party <==> controlModeParameter.value == 2.0
    ensures m == Boost <==> controlModeParameter.value == 3.0
    ensures m == Auto <==> controlModeParameter.value !in {1.0, 2.0, 3.0}
  {
    var controlMode := controlModeParameter.value;
    if controlMode == 0.0 then Auto
    else if controlMode == 1.0 then Manual
    else if controlMode == 2.0 then Party
    else if controlMode == 3.0 then Boost
    else Auto
  }

  /** The valve position and its display; a wall thermostat has neither and shows -1 and "-". */
  function ValveReading(env: Env, fields: map<string, Attr>): (reading: (real, string))
    ensures "VALVE_STATE" !in fields ==> reading == (-1.0, "-")
    ensures "VALVE_STATE" in fields ==>
      reading.0 == fields["VALVE_STATE"].value
      && reading.1 == env.numberToString(reading.0) + fields["VALVE_STATE"].unit
  {
    if "VALVE_STATE" in fields then
      var valveState := fields["VALVE_STATE"].value;
      (valveState, env.numberToString(valveState) + fields["VALVE_STATE"].unit)
    else
      (-1.0, "-")
  }

  /**
   * The switch over the control-mode code. `partyEnd` is the formatted end
   * date, read only for PARTY. As in the source, AUTO heats on `valveState > 0`
   * but MANUAL on `valveState != 0`, so MANUAL's `valveState < 0` arm is dead.
   */
  function ModeText(env: Env, controlMode: real, valveState: real, valveStateDisplay: string, partyEnd: string): string {
    var off := env.translate("RADIATOR_OFF");
    if controlMode == 0.0 then
      if valveState > 0.0 then env.translate("HEATS_WITH") + " " + valveStateDisplay
      else if valveState < 0.0 then env.translate("RADIATOR_MODE") + " " + env.translate("RADIATOR_MODE_" + Auto.Name())
      else off
    else if controlMode == 1.0 then
      if valveState != 0.0 then
        env.translate("RADIATOR_MODE_" + Manual.Name()) + ", " + env.translate("HEATS_WITH") + " " + valveStateDisplay
      else if valveState < 0.0 then env.translate("RADIATOR_MODE") + " " + env.translate("RADIATOR_MODE_" + Manual.Name())
      else off
    else if controlMode == 2.0 then
      env.translate("RADIATOR_MODE_" + Party.Name()) + " " + env.translate("HOLIDAY_MODE_UNTIL") + " " + partyEnd
    else if controlMode == 3.0 then
      env.translate("RADIATOR_MODE_" + Boost.Name())
    else off
  }

  /** The datapoints PARTY mode reads. */
  const PARTY_FIELDS: set<string> := {"PARTY_STOP_YEAR", "PARTY_STOP_MONTH", "PARTY_STOP_DAY"}

  /** The first PARTY datapoint the snapshot lacks, if any, in the order the source reads them. */
  function MissingPartyField(fields: map<string, Attr>): (missing: Option<string>)
    ensures missing.None? <==> PARTY_FIELDS <= fields.Keys
    ensures missing.Some? ==> missing.value in PARTY_FIELDS && missing.value !in fields
    ensures missing == Some("PARTY_STOP_MONTH") ==> "PARTY_STOP_YEAR" in fields
    ensures missing == Some("PARTY_STOP_DAY") ==> "PARTY_STOP_YEAR" in fields && "PARTY_STOP_MONTH" in fields
  {
    if "PARTY_STOP_YEAR" !in fields then Some("PARTY_STOP_YEAR")
    else if "PARTY_STOP_MONTH" !in fields then Some("PARTY_STOP_MONTH")
    else if "PARTY_STOP_DAY" !in fields then Some("PARTY_STOP_DAY")
    else None
  }

  /**
   * prepareControlModeOutput: aborts when CONTROL_MODE is missing, or when the
   * mode is PARTY and an end-date datapoint is missing; otherwise the mode text.
   */
  function PrepareControlModeOutput(env: Env, fields: map<string, Attr>): (r: Result<string, Fault>)
    ensures "CONTROL_MODE" !in fields ==> r == Err(MissingField("CONTROL_MODE"))
    ensures r.Err? <==>
      "CONTROL_MODE" !in fields
      || (fields["CONTROL_MODE"].value == 2.0 && MissingPartyField(fields).Some?)
    ensures ("CONTROL_MODE" in fields && fields["CONTROL_MODE"].value == 2.0 && MissingPartyField(fields).Some?)
      ==> r == Err(MissingField(MissingPartyField(fields).value))
    ensures r.Ok? && fields["CONTROL_MODE"].value != 2.0 ==>
      r.value == ModeText(env, fields["CONTROL_MODE"].value, ValveReading(env, fields).0, ValveReading(env, fields).1, "")
  {
    if "CONTROL_MODE" !in fields then Err(MissingField("CONTROL_MODE"))
    else
      var controlMode := fields["CONTROL_MODE"].value;
      var (valveState, valveStateDisplay) := ValveReading(env, fields);
      if controlMode == 2.0 then
        match MissingPartyField(fields)
        case Some(name) => Err(MissingField(name))
        case None =>
          var partyEnd := env.formatDate(
            fields["PARTY_STOP_YEAR"].value,
            fields["PARTY_STOP_MONTH"].value - 1.0,
            fields["PARTY_STOP_DAY"].value);
          Ok(ModeText(env, controlMode, valveState, valveStateDisplay, partyEnd))
      else
        Ok(ModeText(env, controlMode, valveState, valveStateDisplay, ""))
  }

  /** The translation keys the mode names make. */
  lemma ModeKeys()
    ensures "RADIATOR_MODE_" + Auto.Name() == "RADIATOR_MODE_AUTO"
    ensures "RADIATOR_MODE_" + Manual.Name() == "RADIATOR_MODE_MANUAL"
    ensures "RADIATOR_MODE_" + Party.Name() == "RADIATOR_MODE_PARTY"
    ensures "RADIATOR_MODE_" + Boost.Name() == "RADIATOR_MODE_BOOST"
  {
  }

  /** A code outside 0-3 shows "radiator off", although prepareControlMode calls it AUTO. */
  lemma UnknownCodeIsOff(env: Env, code: real, unit: string, valveState: real, valveStateDisplay: string, partyEnd: string)
    requires code !in {0.0, 1.0, 2.0, 3.0}
    ensures PrepareControlMode(Attr(code, unit)) == Auto
    ensures ModeText(env, code, valveState, valveStateDisplay, partyEnd) == env.translate("RADIATOR_OFF")
  {
  }

  /** AUTO: heating with an open valve, "mode auto" without a valve, off with a closed valve. */
  lemma AutoCases(env: Env, valveState: real, valveStateDisplay: string, partyEnd: string)
    ensures valveState > 0.0 ==>
      ModeText(env, 0.0, valveState, valveStateDisplay, partyEnd) == env.translate("HEATS_WITH") + " " + valveStateDisplay
    ensures valveState < 0.0 ==>
      ModeText(env, 0.0, valveState, valveStateDisplay, partyEnd)
        == env.translate("RADIATOR_MODE") + " " + env.translate("RADIATOR_MODE_AUTO")
    ensures valveState == 0.0 ==>
      ModeText(env, 0.0, valveState, valveStateDisplay, partyEnd) == env.translate("RADIATOR_OFF")
  {
    ModeKeys();
  }

  /**
   * MANUAL has only two outcomes: any non-zero valve state, the wall
   * thermostat's -1 included, shows "manual, heats with"; zero shows off.
   */
  lemma ManualCases(env: Env, valveState: real, valveStateDisplay: string, partyEnd: string)
    ensures valveState != 0.0 ==>
      ModeText(env, 1.0, valveState, valveStateDisplay, partyEnd)
        == env.translate("RADIATOR_MODE_MANUAL") + ", " + env.translate("HEATS_WITH") + " " + valveStateDisplay
    ensures valveState == 0.0 ==>
      ModeText(env, 1.0, valveState, valveStateDisplay, partyEnd) == env.translate("RADIATOR_OFF")
  {
    ModeKeys();
  }

  /** A wall thermostat in MANUAL mode shows "manual, heats with -". */
  lemma WallThermostatManual(env: Env, fields: map<string, Attr>)
    requires "CONTROL_MODE" in fields && fields["CONTROL_MODE"].value == 1.0
    requires "VALVE_STATE" !in fields
    ensures PrepareControlModeOutput(env, fields)
      == Ok(env.translate("RADIATOR_MODE_MANUAL") + ", " + env.translate("HEATS_WITH") + " -")
  {
    ManualCases(env, -1.0, "-", "");
    var prefix := env.translate("RADIATOR_MODE_MANUAL") + ", " + env.translate("HEATS_WITH");
    assert prefix + " " + "-" == prefix + " -";
  }

  /** BOOST ignores the valve. */
  lemma BoostIgnoresValve(env: Env, valveState: real, valveStateDisplay: string, partyEnd: string)
    ensures ModeText(env, 3.0, valveState, valveStateDisplay, partyEnd) == env.translate("RADIATOR_MODE_BOOST")
  {
    ModeKeys();
  }

  /** PARTY shows the end date, built with the stored month decremented once. */
  lemma PartyEndDate(env: Env, fields: map<string, Attr>)
    requires "CONTROL_MODE" in fields && fields["CONTROL_MODE"].value == 2.0
    requires "PARTY_STOP_YEAR" in fields && "PARTY_STOP_MONTH" in fields && "PARTY_STOP_DAY" in fields
    ensures PrepareControlModeOutput(env, fields) == Ok(
      env.translate("RADIATOR_MODE_PARTY") + " " + env.translate("HOLIDAY_MODE_UNTIL") + " "
      + env.formatDate(fields["PARTY_STOP_YEAR"].value, fields["PARTY_STOP_MONTH"].value - 1.0, fields["PARTY_STOP_DAY"].value))
  {
    ModeKeys();
  }
}
