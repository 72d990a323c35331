/** Values shared by every component: the event of the wire contract and its
    semantic validation. */
module Telemetry {

  datatype Option<+T> = None | Some(value: T)

  /** An IEEE double, kept only as far as validation looks at it. */
  datatype Float = Finite(value: real) | NaN | Infinite(negative: bool)

  /** Instants are nanoseconds since 1970-01-01T00:00:00Z, in UTC. */
  type Instant = int

  const SECOND: int := 1_000_000_000
  const MILLISECOND: int := 1_000_000
  const HOUR: int := 3600 * SECOND

  /** 0001-01-01T00:00:00Z, the zero time. */
  const ZERO_TIME: Instant := -62_135_596_800 * SECOND
  /** 10000-01-01T00:00:00Z, the first instant whose year has five digits. */
  const YEAR_10000: Instant := 253_402_300_800 * SECOND

  const SCHEMA_VERSION := 1
  const MAX_ID_BYTES := 128

  datatype Measurement = Measurement(
    sourceTimestamp: Instant,
    gpuUuid: string,
    metricName: string,
    value: Float,
    localGpuId: string,
    device: string,
    modelName: string,
    hostname: string,
    container: string,
    pod: string,
    namespace: string,
    labelsRaw: string)
  {
    predicate Validate() {
      && gpuUuid != "" && metricName != "" && sourceTimestamp != ZERO_TIME
      && value.Finite?
    }
  }

  datatype Event = Event(
    schemaVersion: int,
    eventId: string,
    producerId: string,
    replayIndex: nat,
    rowIndex: nat,
    processedAt: Instant,
    measurement: Measurement)
  {
    predicate Validate() {
      && schemaVersion == SCHEMA_VERSION
      && 0 < |eventId| <= MAX_ID_BYTES && 0 < |producerId| <= MAX_ID_BYTES
      && rowIndex != 0 && processedAt != ZERO_TIME && processedAt % 1000 == 0
      && measurement.Validate()
    }
  }

  /** The JSON text of an event: the event it decodes to and its length. Equal
      texts are equal payloads, so a payload also stands for its own SHA-256. */
  datatype Payload = Payload(event: Event, size: nat)
}
