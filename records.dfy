/**
 * The data the pipeline passes around: decoded JSON values and the
 * normalised per-aircraft record the parser emits.
 */
module Records {

  /**
   * A decoded JSON value. An integer is a `Num` like any other number; an
   * object keeps its members in document order, as a Python `dict` does.
   */
  datatype Value =
    | Null
    | Bool(b: bool)
    | Num(n: real)
    | Str(s: string)
    | Arr(items: seq<Value>)
    | Obj(members: seq<(string, Value)>)

  /** The decoded top-level JSON object of one trace file. */
  type Document = map<string, Value>

  /** One surviving position sample: the computed timestamp, and `lat`, `lon` and `altitude` as they were read. */
  datatype TracePoint = TracePoint(timestamp: real, lat: Value, lon: Value, altitude: Value)

  /** The normalised record written for one aircraft. */
  datatype TraceRecord = TraceRecord(icao: string, aircraftType: Value, trace: seq<TracePoint>)
}
