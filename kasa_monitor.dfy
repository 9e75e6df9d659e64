/** The appliance-cycle state machine of the smart-plug monitor: a plug's
    power readings drive an appliance through Idle, Running and Finishing,
    and exactly one completion is reported per cycle. The plug read and the
    wall clock are parameters: a failed read is `None`, and `now` is a time
    in whole seconds. */
module KasaMonitor {
  import opened Common

  datatype ApplianceState = Idle | Running | Finishing

  /** Per-appliance thresholds. */
  datatype ApplianceConfig = ApplianceConfig(
    name: string,
    deviceIp: string,
    powerThresholdStart: real,    // watts to consider the cycle started
    powerThresholdRunning: real,  // watts to consider it still running
    idleTimeThreshold: int,       // seconds below threshold to consider it done
    checkInterval: int)           // seconds between checks

  /** A configuration with the documented defaults. */
  function DefaultConfig(name: string, deviceIp: string): (c: ApplianceConfig)
    ensures c.name == name && c.deviceIp == deviceIp
    ensures c.powerThresholdRunning < c.powerThresholdStart
    ensures c.idleTimeThreshold == 120 && c.checkInterval == 10
  {
    ApplianceConfig(name, deviceIp, 5.0, 3.0, 120, 10)
  }

  /** The monitor's four mutable fields as one value. */
  datatype MonitorState = MonitorState(
    state: ApplianceState,
    idleStart: Option<int>,
    cycleStart: Option<int>,
    lastPower: real)

  /** A cycle start time is recorded exactly while a cycle is under way, and
      an idle start time exactly while the monitor waits for completion. */
  predicate Inv(s: MonitorState) {
    (s.cycleStart.Some? <==> s.state != Idle) && (s.idleStart.Some? <==> s.state == Finishing)
  }

  /** The data of the completion notification: the appliance, the cycle's
      duration in seconds and the last reading. */
  datatype Completion = Completion(name: string, cycleSeconds: int, finalPower: real)

  /** A freshly constructed monitor. */
  function Initial(): (s: MonitorState)
    ensures Inv(s) && s.state == Idle && s.lastPower == 0.0
  {
    MonitorState(Idle, None, None, 0.0)
  }

  /** Whether a reading completes the cycle in state `s`. */
  predicate Completes(c: ApplianceConfig, s: MonitorState, power: Option<real>, now: int)
    requires Inv(s)
  {
    s.state == Finishing && power.Some? && power.value < c.powerThresholdRunning
    && now - s.idleStart.value >= c.idleTimeThreshold
  }

  /** One call of the state check: the new fields and the notification, if any. */
  function Step(c: ApplianceConfig, s: MonitorState, power: Option<real>, now: int)
    : (r: (MonitorState, Option<Completion>))
    requires Inv(s)
    ensures Inv(r.0)
    // a failed read reports nothing and changes nothing
    ensures power.None? ==> r == (s, None)
    // every successful read is remembered
    ensures power.Some? ==> r.0.lastPower == power.value
    // Idle: a start-level reading begins a cycle, anything lower changes nothing else
    ensures power.Some? && s.state == Idle ==>
      if power.value >= c.powerThresholdStart
      then r.0.state == Running && r.0.cycleStart == Some(now) && r.0.idleStart == None
      else r.0 == s.(lastPower := power.value)
    // Running: a low reading starts the idle timer, otherwise the timer is cleared
    ensures power.Some? && s.state == Running ==>
      r.0.cycleStart == s.cycleStart &&
      if power.value < c.powerThresholdRunning
      then r.0.state == Finishing && r.0.idleStart == Some(now)
      else r.0.state == Running && r.0.idleStart == None
    // Finishing: power coming back resumes the same cycle
    ensures power.Some? && s.state == Finishing && power.value >= c.powerThresholdRunning ==>
      r.0.state == Running && r.0.idleStart == None && r.0.cycleStart == s.cycleStart
    // Finishing: a short idle changes nothing but the last reading
    ensures (power.Some? && s.state == Finishing && power.value < c.powerThresholdRunning
             && !Completes(c, s, power, now)) ==> r.0 == s.(lastPower := power.value)
    // a notification is produced exactly on the Finishing -> Idle step
    ensures r.1.Some? <==> Completes(c, s, power, now)
    ensures r.1.Some? ==>
      r.0.state == Idle && r.0.idleStart == None && r.0.cycleStart == None &&
      r.1.value == Completion(c.name, now - s.cycleStart.value, power.value)
  {
    match power
    case None => (s, None)
    case Some(p) =>
      var s1 := s.(lastPower := p);
      match s.state
      case Idle =>
        if p >= c.powerThresholdStart then
          (s1.(state := Running, cycleStart := Some(now), idleStart := None), None)
        else (s1, None)
      case Running =>
        if p < c.powerThresholdRunning then
          (s1.(idleStart := Some(now), state := Finishing), None)
        else (s1.(idleStart := None), None)
      case Finishing =>
        if p >= c.powerThresholdRunning then
          (s1.(state := Running, idleStart := None), None)
        else if now - s.idleStart.value >= c.idleTimeThreshold then
          (s1.(state := Idle, idleStart := None, cycleStart := None),
           Some(Completion(c.name, now - s.cycleStart.value, p)))
        else (s1, None)
  }

  /** A sequence of checks: the final fields and every notification, in order. */
  function Run(c: ApplianceConfig, s: MonitorState, readings: seq<(Option<real>, int)>)
    : (r: (MonitorState, seq<Completion>))
    requires Inv(s)
    ensures Inv(r.0)
    ensures |r.1| <= |readings|
    decreases |readings|
  {
    if readings == [] then (s, [])
    else
      var (s1, m) := Step(c, s, readings[0].0, readings[0].1);
      var (s2, ms) := Run(c, s1, readings[1..]);
      (s2, (if m.Some? then [m.value] else []) + ms)
  }

  /** How many checks of a run start a new cycle (Idle -> Running). */
  function Starts(c: ApplianceConfig, s: MonitorState, readings: seq<(Option<real>, int)>): nat
    requires Inv(s)
    decreases |readings|
  {
    if readings == [] then 0
    else
      var s1 := Step(c, s, readings[0].0, readings[0].1).0;
      (if s.state == Idle && s1.state != Idle then 1 else 0) + Starts(c, s1, readings[1..])
  }

  function Busy(s: MonitorState): nat {
    if s.state == Idle then 0 else 1
  }

  /** Exactly one notification per cycle: every started cycle is reported
      once, except one still in progress at the end of the run. */
  lemma {:induction false} OneCompletionPerCycle(c: ApplianceConfig, s: MonitorState, readings: seq<(Option<real>, int)>)
    requires Inv(s)
    ensures |Run(c, s, readings).1| + Busy(Run(c, s, readings).0) == Starts(c, s, readings) + Busy(s)
    decreases |readings|
  {
    if readings != [] {
      var s1 := Step(c, s, readings[0].0, readings[0].1).0;
      OneCompletionPerCycle(c, s1, readings[1..]);
    }
  }

  /** Timestamps recorded by the monitor are not later than `now`, and a
      cycle starts no later than its idle period. */
  predicate TimesBefore(s: MonitorState, now: int) {
    (s.cycleStart.Some? ==> s.cycleStart.value <= now) &&
    (s.idleStart.Some? ==> s.idleStart.value <= now) &&
    (s.cycleStart.Some? && s.idleStart.Some? ==> s.cycleStart.value <= s.idleStart.value)
  }

  /** With a clock that does not go backwards, a reported cycle lasted at
      least the idle threshold, and the timestamps stay ordered. */
  lemma CycleOutlastsIdleThreshold(c: ApplianceConfig, s: MonitorState, power: Option<real>, before: int, now: int)
    requires Inv(s) && TimesBefore(s, before) && before <= now
    ensures TimesBefore(Step(c, s, power, now).0, now)
    ensures Step(c, s, power, now).1.Some? ==>
      Step(c, s, power, now).1.value.cycleSeconds >= c.idleTimeThreshold
  {
  }

  /** Over a whole run with a clock that does not go backwards, every
      reported cycle lasted at least the idle threshold. */
  lemma {:induction false} RunCyclesOutlastIdleThreshold(c: ApplianceConfig, s: MonitorState, before: int,
                                                         readings: seq<(Option<real>, int)>)
    requires Inv(s) && TimesBefore(s, before)
    requires forall i :: 0 <= i < |readings| ==> before <= readings[i].1
    requires forall i, j :: 0 <= i < j < |readings| ==> readings[i].1 <= readings[j].1
    ensures forall k :: 0 <= k < |Run(c, s, readings).1| ==>
      Run(c, s, readings).1[k].cycleSeconds >= c.idleTimeThreshold
    decreases |readings|
  {
    if readings != [] {
      var (s1, m) := Step(c, s, readings[0].0, readings[0].1);
      CycleOutlastsIdleThreshold(c, s, readings[0].0, before, readings[0].1);
      RunCyclesOutlastIdleThreshold(c, s1, readings[0].1, readings[1..]);
    }
  }

  /** The monitor object: the configuration and the four fields that
      `CheckState` updates in place. */
  class ApplianceMonitor {
    const config: ApplianceConfig
    var state: ApplianceState
    var idleStartTime: Option<int>
    var cycleStartTime: Option<int>
    var lastPower: real

    function Fields(): MonitorState
      reads this
    {
      MonitorState(state, idleStartTime, cycleStartTime, lastPower)
    }

    predicate Valid()
      reads this
    {
      Inv(Fields())
    }

    constructor(config: ApplianceConfig)
      ensures Valid() && this.config == config && Fields() == Initial()
    {
      this.config := config;
      state := Idle;
      idleStartTime := None;
      cycleStartTime := None;
      lastPower := 0.0;
    }

    /** Feed one power reading taken at `now`; returns the completion
        notification when this reading ends a cycle. */
    method CheckState(power: Option<real>, now: int) returns (message: Option<Completion>)
      requires Valid()
      modifies this
      ensures Valid()
      ensures (Fields(), message) == Step(config, old(Fields()), power, now)
    {
      if power.None? {
        return None;
      }
      var p := power.value;
      lastPower := p;
      message := None;
      if state == Idle {
        if p >= config.powerThresholdStart {
          state := Running;
          cycleStartTime := Some(now);
          idleStartTime := None;
        }
      } else if state == Running {
        if p < config.powerThresholdRunning {
          if idleStartTime.None? {
            idleStartTime := Some(now);
            state := Finishing;
          }
        } else {
          idleStartTime := None;
        }
      } else {
        if p >= config.powerThresholdRunning {
          state := Running;
          idleStartTime := None;
        } else {
          var idleDuration := now - idleStartTime.value;
          if idleDuration >= config.idleTimeThreshold {
            var cycleDuration := now - cycleStartTime.value;
            message := Some(Completion(config.name, cycleDuration, p));
            state := Idle;
            idleStartTime := None;
            cycleStartTime := None;
          }
        }
      }
    }
  }
}
