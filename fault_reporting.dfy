/** The fault-code interpreter (prepareFaultReporting). */
module FaultReporting {
  import opened Wrappers
  import opened Host
  import opened Readings

  /** The codes that name a fault. */
  const FAULT_CODES: set<real> := {1.0, 2.0, 3.0, 4.0, 6.0, 7.0}

  /** The translation key of a fault code; codes without a fault have none. */
  function FaultKey(code: real): (key: Option<string>)
    ensures key.Some? <==> code in FAULT_CODES
  {
    if code == 1.0 then Some("VALVE_TIGHT")
    else if code == 2.0 then Some("ADJUSTING_RANGE_TOO_LARGE")
    else if code == 3.0 then Some("ADJUSTING_RANGE_TOO_SMALL")
    else if code == 4.0 then Some("COMMUNICATION_ERROR")
    else if code == 6.0 then Some("LOWBAT")
    else if code == 7.0 then Some("VALVE_ERROR_POSITION")
    else None
  }

  /** The translated fault message; empty when there is no record or no fault. */
  function ErrorMessage(env: Env, faultReporting: Option<Attr>): (msg: string)
    ensures faultReporting.None? ==> msg == ""
    ensures faultReporting.Some? && faultReporting.value.value !in FAULT_CODES ==> msg == ""
  {
    if faultReporting.Some? then
      match FaultKey(faultReporting.value.value)
      case Some(key) => env.translate(key)
      case None => ""
    else ""
  }

  /**
   * The fault banner: present exactly when there is a record whose code
   * names a fault whose translated message is not empty, and then the
   * warning label and the message inside a `faultReporting` span.
   */
  function PrepareFaultReporting(env: Env, faultReporting: Option<Attr>): (banner: string)
    ensures banner != "" <==>
      faultReporting.Some? && faultReporting.value.value in FAULT_CODES
      && env.translate(FaultKey(faultReporting.value.value).value) != ""
    ensures banner != "" ==>
      banner == "<span class='faultReporting'>" + env.translate("WARNING")
        + env.translate(FaultKey(faultReporting.value.value).value) + "</span>"
  {
    var errorMsg := ErrorMessage(env, faultReporting);
    if errorMsg != "" then
      "<span class='faultReporting'>" + env.translate("WARNING") + errorMsg + "</span>"
    else ""
  }

  /** The fault-code table. */
  lemma FaultTable()
    ensures FaultKey(1.0) == Some("VALVE_TIGHT")
    ensures FaultKey(2.0) == Some("ADJUSTING_RANGE_TOO_LARGE")
    ensures FaultKey(3.0) == Some("ADJUSTING_RANGE_TOO_SMALL")
    ensures FaultKey(4.0) == Some("COMMUNICATION_ERROR")
    ensures FaultKey(6.0) == Some("LOWBAT")
    ensures FaultKey(7.0) == Some("VALVE_ERROR_POSITION")
    ensures FaultKey(0.0).None? && FaultKey(5.0).None?
  {
  }

  /** No fault record, or a code without a fault, gives no banner. */
  lemma NoBannerWithoutFault(env: Env, faultReporting: Option<Attr>)
    requires faultReporting.None? || faultReporting.value.value !in FAULT_CODES
    ensures PrepareFaultReporting(env, faultReporting) == ""
  {
  }
}
