/**
  A reading of the solar-thermal controller (`Measurements` in src/main.rs): a
  timestamp and 22 channel values in a fixed schema order.
 */
module Telemetry {

  /**
    The bit pattern of an IEEE 754 binary64 value. The gateway only copies
    channel values from the decoder to the sink, it never computes on them.
   */
  newtype F64Bits = x: int | 0 <= x < 0x1_0000_0000_0000_0000

  /** The bit pattern of `0.0`. */
  const PositiveZero: F64Bits := 0

  /** A wall-clock instant; the clock is read by the caller. */
  type Timestamp = int

  const ChannelCount: nat := 22

  /** The channels in the order the decoder's field iterator yields them. */
  const Schema: seq<string> := [
    "temperature_01", "temperature_02", "temperature_03", "temperature_04",
    "temperature_05", "temperature_06", "temperature_07", "temperature_08",
    "temperature_09", "irradiation_10", "temperature_11", "temperature_12",
    "flow_rate_09", "flow_rate_11", "flow_rate_12",
    "pressure_11", "pressure_12",
    "relay_01", "relay_02", "relay_03", "relay_04", "relay_05"
  ]

  /** Exactly one value per schema position: a partial reading cannot be built. */
  type Channels = s: seq<F64Bits> | |s| == ChannelCount witness seq(ChannelCount, _ => PositiveZero)

  datatype Measurements = Measurements(time: Timestamp, channels: Channels)

  lemma SchemaShape()
    ensures |Schema| == ChannelCount
    ensures forall i, j :: 0 <= i < j < |Schema| ==> Schema[i] != Schema[j]
  {
  }

  /** The value of each named channel, as the query interface and the sink see it. */
  function NamedChannels(m: Measurements): (r: map<string, F64Bits>)
    ensures r.Keys == set k | 0 <= k < ChannelCount :: Schema[k]
    ensures forall k :: 0 <= k < ChannelCount ==> r[Schema[k]] == m.channels[k]
  {
    SchemaShape();
    map k | 0 <= k < ChannelCount :: Schema[k] := m.channels[k]
  }

  /** The reading before the first acquisition: every channel holds `0.0`. */
  function Zeroed(now: Timestamp): (m: Measurements)
    ensures m.time == now
    ensures forall name :: name in NamedChannels(m) ==> NamedChannels(m)[name] == PositiveZero
  {
    Measurements(now, seq(ChannelCount, _ => PositiveZero))
  }
}
