/** One polled device reading, as the hub's batch response delivers it. */
module Readings {

  /** A datapoint: its numeric `value` and its `valueunit`. */
  datatype Attr = Attr(value: real, unit: string)

  /** A device's snapshot: the hub-reported name and its datapoints by name. */
  datatype Snapshot = Snapshot(deviceName: string, fields: map<string, Attr>)

  /** One `deviceId: [snapshot, ...]` property of a response element. */
  datatype Keyed = Keyed(id: string, readings: seq<Snapshot>)

  /** The TypeError that aborts a render pass, by what was not there. */
  datatype Fault =
    | NoReading(deviceId: string)
    | UnknownDevice(deviceId: string)
    | MissingField(name: string)

  /** A radiator thermostat reports a valve position; a wall thermostat does not. */
  predicate IsRadiator(snapshot: Snapshot) {
    "VALVE_STATE" in snapshot.fields
  }
}
