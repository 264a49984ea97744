/** The backend's bookkeeping (backend/app.py): collecting purifier states,
    detecting changes between polls, the adaptive poll interval, the
    refresh decisions of the polling loop and of a new client connection.
    The cloud library, the socket server, threads, sleeping and logging are
    outside the model: the fans the library reports and the clock readings
    are parameters, and an emitted `devices_update` message is a result. */
module Backend {
  import opened Json
  import opened PyDict

  const MinUpdateInterval: real := 10.0
  const MaxUpdateInterval: real := 30.0
  /** Seconds without change after which the interval reaches its maximum. */
  const MaxUpdateIntervalTime: real := 120.0
  /** Seconds after which device states are refreshed even with no client. */
  const MaxStateAge: real := 59.0

  /** A purifier as the cloud library exposes it, reduced to the attributes
      read here. An attribute the object lacks reads as `Null`; `details`
      is `None` when the object has no details dict at all. */
  datatype Fan = Fan(
    deviceName: string,
    deviceType: string,
    isOn: bool,
    mode: Value,
    fanLevel: Value,
    airQuality: Value,
    details: Option<map<string, Value>>,
    filterLife: Value)

  /** The library's manager object and its list of fans. */
  datatype Manager = Manager(fans: seq<Fan>)

  /** The record built for one fan. */
  function Info(fan: Fan): (info: DeviceInfo)
    ensures info.name == Str(fan.deviceName) && info.model == Str(fan.deviceType) && info.isOn == Bool(fan.isOn)
    ensures info.mode == fan.mode && info.fanSpeed == fan.fanLevel
    ensures info.airQuality == fan.airQuality && info.filterLife == fan.filterLife
    ensures fan.details.Some? && "air_quality_value" in fan.details.value ==>
              info.airQualityValue == fan.details.value["air_quality_value"]
    ensures info.airQualityValue != Null ==>
              fan.details.Some? && "air_quality_value" in fan.details.value
              && info.airQualityValue == fan.details.value["air_quality_value"]
  {
    DeviceInfo(
      Str(fan.deviceName),
      Str(fan.deviceType),
      Bool(fan.isOn),
      fan.mode,
      fan.fanLevel,
      fan.airQuality,
      match fan.details
      case Some(d) => if "air_quality_value" in d then d["air_quality_value"] else Null
      case None => Null,
      fan.filterLife)
  }

  function Names(fans: seq<Fan>): set<string>
  {
    set i | 0 <= i < |fans| :: fans[i].deviceName
  }

  /** The dict that recording every fan by name, in list order, produces:
      one entry per distinct name. */
  function Collected(fans: seq<Fan>): (d: Dict<DeviceInfo>)
    ensures Distinct(d)
    ensures Keys(d) == Names(fans)
  {
    if fans == [] then []
    else
      var prefix := fans[..|fans| - 1];
      var last := fans[|fans| - 1];
      PutGet(Collected(prefix), last.deviceName, Info(last));
      assert Names(fans) == Names(prefix) + {last.deviceName} by {
        forall n | n in Names(fans) ensures n in Names(prefix) + {last.deviceName} {
          var i :| 0 <= i < |fans| && fans[i].deviceName == n;
          if i < |fans| - 1 { assert prefix[i] == fans[i]; }
        }
        forall n | n in Names(prefix) ensures n in Names(fans) {
          var i :| 0 <= i < |prefix| && prefix[i].deviceName == n;
          assert fans[i] == prefix[i];
        }
      }
      Put(Collected(prefix), last.deviceName, Info(last))
  }

  /** A fan whose name no later fan repeats has its own record in the
      collected dict: a later fan with a duplicate name overwrites an
      earlier one. */
  lemma {:induction false} CollectedLastWins(fans: seq<Fan>, i: nat)
    requires i < |fans|
    requires forall j :: i < j < |fans| ==> fans[j].deviceName != fans[i].deviceName
    ensures Get(Collected(fans), fans[i].deviceName) == Some(Info(fans[i]))
  {
    var prefix := fans[..|fans| - 1];
    var last := fans[|fans| - 1];
    PutGet(Collected(prefix), last.deviceName, Info(last));
    if i < |fans| - 1 {
      assert prefix[i] == fans[i];
      CollectedLastWins(prefix, i);
    }
  }

  /** collect_device_states: no manager, or a manager without fans, gives an
      empty dict; otherwise every fan is recorded under its name in turn. */
  method CollectDeviceStates(manager: Option<Manager>) returns (states: Dict<DeviceInfo>)
    ensures manager.None? || manager.value.fans == [] ==> states == []
    ensures manager.Some? ==> states == Collected(manager.value.fans)
  {
    states := [];
    if manager.Some? && manager.value.fans != [] {
      var fans := manager.value.fans;
      var i := 0;
      while i < |fans|
        invariant 0 <= i <= |fans|
        invariant states == Collected(fans[..i])
      {
        assert fans[..i + 1][..i] == fans[..i];
        states := Put(states, fans[i].deviceName, Info(fans[i]));
        i := i + 1;
      }
      assert fans[..|fans|] == fans;
    }
  }

  /** Some device of `current` is new, or its recorded state differs from
      the one in `last`. */
  predicate ChangeDetected(last: Dict<DeviceInfo>, current: Dict<DeviceInfo>)
  {
    exists i :: 0 <= i < |current| && Get(last, current[i].0) != Some(current[i].1)
  }

  /** The scan of check_device_states: every device of `current` is looked
      up by name in `last` and, when present, compared by state hash. */
  method DetectChanges(last: Dict<DeviceInfo>, current: Dict<DeviceInfo>) returns (changed: bool)
    ensures changed <==> ChangeDetected(last, current)
  {
    changed := false;
    var i := 0;
    while i < |current|
      invariant 0 <= i <= |current|
      invariant changed <==> exists j :: 0 <= j < i && Get(last, current[j].0) != Some(current[j].1)
    {
      var (name, info) := current[i];
      var previous := Get(last, name);
      if previous.None? {
        changed := true;
      } else {
        StateHashInjective(previous.value, info);
        if StateHash(previous.value) != StateHash(info) {
          changed := true;
        }
      }
      i := i + 1;
    }
  }

  /** A poll that finds every device with the state it had at the last
      change reports nothing, even if devices have disappeared since; a
      device never seen before always counts as a change. */
  lemma ChangeDetectedIff(last: Dict<DeviceInfo>, current: Dict<DeviceInfo>)
    requires Distinct(current)
    ensures !ChangeDetected(last, current) <==>
              Keys(current) <= Keys(last) &&
              forall n :: n in Keys(current) ==> Get(last, n) == Get(current, n)
  {
    if !ChangeDetected(last, current) {
      forall n | n in Keys(current) ensures n in Keys(last) && Get(last, n) == Get(current, n) {
        var i :| 0 <= i < |current| && current[i].0 == n;
        GetAt(current, i);
      }
    } else {
      var i :| 0 <= i < |current| && Get(last, current[i].0) != Some(current[i].1);
      GetAt(current, i);
    }
  }

  /** The poll interval while nothing changes: it grows linearly from the
      minimum to the maximum over two minutes and then stays at the maximum. */
  function IntervalAfter(sinceChange: real): (interval: real)
    ensures 0.0 <= sinceChange ==> MinUpdateInterval <= interval <= MaxUpdateInterval
    ensures MaxUpdateIntervalTime <= sinceChange ==> interval == MaxUpdateInterval
    ensures sinceChange == 0.0 ==> interval == MinUpdateInterval
  {
    if sinceChange < MaxUpdateIntervalTime then
      var progress := sinceChange / MaxUpdateIntervalTime;
      MinUpdateInterval + (MaxUpdateInterval - MinUpdateInterval) * progress
    else
      MaxUpdateInterval
  }

  /** The longer nothing has changed, the longer the interval. */
  lemma IntervalMonotone(t1: real, t2: real)
    requires t1 <= t2
    ensures IntervalAfter(t1) <= IntervalAfter(t2)
  {
  }

  /** The sleep at the end of a polling round. */
  function SleepTime(interval: real, loopDuration: real): (sleep: real)
    ensures 0.0 <= sleep
    ensures 0.0 <= loopDuration && 0.0 <= interval ==> sleep <= interval
    ensures loopDuration <= interval ==> sleep + loopDuration == interval
  {
    if interval - loopDuration > 0.0 then interval - loopDuration else 0.0
  }

  /** The module-level state the backend's threads share. */
  class Server {
    var lastDeviceStates: Dict<DeviceInfo>
    var lastChangeTime: real
    var lastUpdateTime: real
    var updateInterval: real

    ghost predicate Valid()
      reads this
    {
      Distinct(lastDeviceStates)
    }

    /** Start-up: the states collected right after logging in (no manager
        when the login failed), no refresh yet, the maximum interval. */
    constructor (manager: Option<Manager>, startTime: real)
      ensures Valid()
      ensures lastDeviceStates == (if manager.Some? then Collected(manager.value.fans) else [])
      ensures lastChangeTime == startTime && lastUpdateTime == 0.0
      ensures updateInterval == MaxUpdateInterval
    {
      var states := CollectDeviceStates(manager);
      lastDeviceStates := states;
      lastChangeTime := startTime;
      lastUpdateTime := 0.0;
      updateInterval := MaxUpdateInterval;
    }

    /** One round of check_device_states at time `now`. When a change is
        detected the whole current list is emitted and becomes the
        reference, the change time is `now` and the interval drops to the
        minimum; otherwise the interval follows the time since the last
        change. Without a manager or fans nothing happens. */
    method CheckDeviceStates(manager: Option<Manager>, now: real) returns (emitted: Option<seq<DeviceInfo>>)
      requires Valid()
      modifies this
      ensures Valid()
      ensures lastUpdateTime == old(lastUpdateTime)
      ensures manager.None? || manager.value.fans == [] ==>
                emitted.None? && unchanged(this)
      ensures manager.Some? && manager.value.fans != [] ==>
                var current := Collected(manager.value.fans);
                if ChangeDetected(old(lastDeviceStates), current) then
                  && emitted == Some(Values(current))
                  && lastDeviceStates == current
                  && lastChangeTime == now
                  && updateInterval == MinUpdateInterval
                else
                  && emitted.None?
                  && lastDeviceStates == old(lastDeviceStates)
                  && lastChangeTime == old(lastChangeTime)
                  && updateInterval == IntervalAfter(now - old(lastChangeTime))
    {
      emitted := None;
      if manager.Some? && manager.value.fans != [] {
        var current := CollectDeviceStates(manager);
        var changed := DetectChanges(lastDeviceStates, current);
        if changed {
          emitted := Some(Values(current));
          lastDeviceStates := current;
          lastChangeTime := now;
          updateInterval := MinUpdateInterval;
        } else {
          updateInterval := IntervalAfter(now - lastChangeTime);
        }
      }
    }

    /** The refresh decision and the sleep of one round of update_vesync,
        for a manager that is logged in. `now` is when the age of the states
        is checked, `refreshedAt` when the refresh (if any) finished and
        `loopDuration` how long the round took. */
    method UpdateVesyncStep(now: real, roomsActive: bool, refreshedAt: real, loopDuration: real)
      returns (refresh: bool, sleep: real)
      requires Valid()
      modifies this`lastUpdateTime
      ensures Valid()
      ensures refresh <==> now - old(lastUpdateTime) >= MaxStateAge || roomsActive
      ensures lastUpdateTime == if refresh then refreshedAt else old(lastUpdateTime)
      ensures sleep == SleepTime(updateInterval, loopDuration)
    {
      var sinceUpdate := now - lastUpdateTime;
      var needsUpdate := sinceUpdate >= MaxStateAge;
      refresh := needsUpdate || roomsActive;
      if refresh {
        lastUpdateTime := refreshedAt;
      }
      sleep := SleepTime(updateInterval, loopDuration);
    }

    /** handle_connect at time `now`: the stored states go out first (if
        any); then, when they are stale or missing and a manager exists,
        the devices are refreshed, the fresh states are merged into the
        stored ones and, when there are any, emitted as well. `manager`
        is the manager as it stands after the refresh. */
    method HandleConnect(manager: Option<Manager>, now: real) returns (emits: seq<seq<DeviceInfo>>)
      requires Valid()
      modifies this`lastDeviceStates, this`lastUpdateTime
      ensures Valid()
      ensures var stale := now - old(lastUpdateTime) > MaxUpdateInterval || old(lastDeviceStates) == [];
              var greeting := if old(lastDeviceStates) != [] then [Values(old(lastDeviceStates))] else [];
              if stale && manager.Some? then
                var collected := Collected(manager.value.fans);
                && lastUpdateTime == now
                && (collected != [] ==>
                      lastDeviceStates == Update(old(lastDeviceStates), collected) &&
                      emits == greeting + [Values(collected)])
                && (collected == [] ==> lastDeviceStates == old(lastDeviceStates) && emits == greeting)
              else
                && lastUpdateTime == old(lastUpdateTime)
                && lastDeviceStates == old(lastDeviceStates)
                && emits == greeting
      ensures Keys(old(lastDeviceStates)) <= Keys(lastDeviceStates)
    {
      emits := [];
      if lastDeviceStates != [] {
        emits := [Values(lastDeviceStates)];
      }
      var needsUpdate := now - lastUpdateTime > MaxUpdateInterval || lastDeviceStates == [];
      if needsUpdate && manager.Some? {
        lastUpdateTime := now;
        var current := CollectDeviceStates(manager);
        if current != [] {
          lastDeviceStates := Update(lastDeviceStates, current);
          emits := emits + [Values(current)];
        }
      }
    }
  }

  /** After a connect-time merge every stored device is still there, every
      freshly collected device has its fresh state, and a device that was
      not collected keeps its stored state. */
  lemma MergeOnConnect(stored: Dict<DeviceInfo>, fans: seq<Fan>)
    requires Distinct(stored)
    ensures var merged := Update(stored, Collected(fans));
            && Keys(merged) == Keys(stored) + Names(fans)
            && (forall i :: 0 <= i < |fans| && (forall j :: i < j < |fans| ==> fans[j].deviceName != fans[i].deviceName) ==>
                  Get(merged, fans[i].deviceName) == Some(Info(fans[i])))
            && (forall n :: n !in Names(fans) ==> Get(merged, n) == Get(stored, n))
  {
    var collected := Collected(fans);
    forall i | 0 <= i < |fans| && (forall j :: i < j < |fans| ==> fans[j].deviceName != fans[i].deviceName)
      ensures Get(Update(stored, collected), fans[i].deviceName) == Some(Info(fans[i]))
    {
      CollectedLastWins(fans, i);
    }
  }
}
