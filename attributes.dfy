/** The attribute formatter (prepareAttribute). */
module Attributes {
  import opened Wrappers
  import opened JsValues
  import opened Host
  import opened Readings

  /** The attribute names the formatter knows. */
  const ATTRIBUTE_NAMES: set<string> := {"ACTUAL_TEMPERATURE", "SET_TEMPERATURE", "VALVE_STATE", "ACTUAL_HUMIDITY"}

  /**
   * A known attribute prints as its formatted number directly followed by
   * its unit; reading a known attribute the snapshot lacks aborts; any
   * other name prints as nothing.
   */
  function PrepareAttribute(env: Env, name: string, fields: map<string, Attr>, precision: JsValue): (r: Result<string, Fault>)
    ensures name !in ATTRIBUTE_NAMES ==> r == Ok("")
    ensures name in ATTRIBUTE_NAMES ==> (r.Ok? <==> name in fields)
    ensures name in ATTRIBUTE_NAMES && name in fields ==>
      r.value == env.formatNumber(fields[name].value, precision) + fields[name].unit
    ensures name in ATTRIBUTE_NAMES && name !in fields ==> r == Err(MissingField(name))
  {
    if name == "ACTUAL_TEMPERATURE" || name == "SET_TEMPERATURE" || name == "VALVE_STATE" || name == "ACTUAL_HUMIDITY" then
      if name in fields then
        Ok(env.formatNumber(fields[name].value, precision) + fields[name].unit)
      else
        Err(MissingField(name))
    else
      Ok("")
  }

  /** The unit ends the formatted text, with nothing after it. */
  lemma UnitIsSuffix(env: Env, name: string, fields: map<string, Attr>, precision: JsValue)
    requires name in ATTRIBUTE_NAMES && name in fields
    ensures var text := PrepareAttribute(env, name, fields, precision).value;
      |text| >= |fields[name].unit| && text[|text| - |fields[name].unit|..] == fields[name].unit
  {
    var text := PrepareAttribute(env, name, fields, precision).value;
    var number := env.formatNumber(fields[name].value, precision);
    assert text == number + fields[name].unit;
    assert text[|number|..] == fields[name].unit;
  }
}
