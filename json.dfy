/** Values exchanged between the backend and the dashboard.

    The backend builds one record per purifier (a Python dict with eight
    keys) and ships a list of them as JSON; the dashboard receives the very
    same records as JavaScript objects. `Value` covers the primitive JSON
    values those keys can hold. */
module Json {

  datatype Value = Null | Bool(b: bool) | Num(n: real) | Str(s: string)

  /** One purifier's record, as built by collect_device_states and as
      received by the dashboard. */
  datatype DeviceInfo = DeviceInfo(
    name: Value,
    model: Value,
    isOn: Value,
    mode: Value,
    fanSpeed: Value,
    airQuality: Value,
    airQualityValue: Value,
    filterLife: Value)

  /** The record serialised with its keys in sorted order, which is what the
      backend feeds to its state hash. */
  function Canonical(info: DeviceInfo): seq<(string, Value)>
  {
    [ ("air_quality", info.airQuality),
      ("air_quality_value", info.airQualityValue),
      ("fan_speed", info.fanSpeed),
      ("filter_life", info.filterLife),
      ("is_on", info.isOn),
      ("mode", info.mode),
      ("model", info.model),
      ("name", info.name) ]
  }

  /** The eight keys of a device record, in the order `sort_keys` gives. */
  const SortedKeys: seq<string> :=
    ["air_quality", "air_quality_value", "fan_speed", "filter_life", "is_on", "mode", "model", "name"]

  /** The state hash. Digest collisions are not modelled, so the hash is the
      canonical serialisation itself: one entry per key, in sorted order. */
  function StateHash(info: DeviceInfo): (h: seq<(string, Value)>)
    ensures |h| == |SortedKeys|
    ensures forall i :: 0 <= i < |h| ==> h[i].0 == SortedKeys[i]
  {
    Canonical(info)
  }

  /** Comparing hashes is comparing records: equal contents give equal
      hashes, and different contents give different hashes. */
  lemma StateHashInjective(a: DeviceInfo, b: DeviceInfo)
    ensures StateHash(a) == StateHash(b) <==> a == b
  {
  }
}
