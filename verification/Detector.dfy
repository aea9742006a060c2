/** The anomaly detector and its circuit breakers, as a state machine over samples, registry reloads
    and resets. Values are reals, a display rounding of scores is not modelled. */
module Detector {
  import opened Options
  import opened Text
  import opened Statistics

  const WINDOW_SIZE := 30
  const ALERT_LIMIT := 50
  const STAT_ONLY_WARNING_Z := 3.0
  const STAT_ONLY_TRIP_Z := 5.0
  const WARNING_Z := 2.5
  const TRIP_Z := 4.0
  const MIN_TIME_SPAN := 0.000001

  datatype CircuitState = Normal | Warning | Trip

  datatype Source = Graph | Default | Auto

  /** What a profile only passes on to displays. */
  datatype Labels = Labels(name: string, metric: string, unit: string)

  datatype Profile = Profile(sensorId: string, warn: Option<real>, trip: Option<real>, isLower: bool,
                             source: Source, labels: Labels)

  datatype Breaker = Breaker(profile: Profile, state: CircuitState, value: real, z: real, slope: real,
                             recent: seq<real>)

  datatype Alert = Alert(equipmentId: string, sensorId: string, value: real, severity: CircuitState, z: real)

  datatype Event =
    | MonitorRegistered(equipmentId: string, sensorId: string)
    | RegistryChanged(removed: set<string>)
    | CircuitReset(targets: set<string>)
    | AlertRaised(alert: Alert)
    | Telemetry(equipmentId: string, sensorId: string, value: real, z: real, slope: real, state: CircuitState)

  type Deviation = s: real | s >= 0.0

  /** A telemetry message, the time of its arrival, and the deviation of the window it completes. */
  datatype Sample = Sample(equipmentId: string, sensorId: string, value: real, labels: Labels,
                           now: real, deviation: Deviation)

  /** `profiles` and `tried` belong to the registry, `graphCalls` lists its graph registrations,
      `alerts` and `log` are all alerts ever raised and all events ever broadcast. */
  datatype DetectorState = DetectorState(profiles: map<string, Profile>, tried: set<string>, graphCalls: seq<string>,
                               breakers: map<string, Breaker>,
                               windows: map<string, seq<real>>, stamps: map<string, seq<real>>,
                               alerts: seq<Alert>, log: seq<Event>)

  datatype Input = Telemetered(sample: Sample) | Reload(graph: map<string, Profile>) | Reset(target: Option<string>)

  const INITIAL := DetectorState(map[], {}, [], map[], map[], map[], [], [])

  // ---------------------------------------------------------------- registry

  function DefaultProfile(sensorId: string, warn: real, trip: real, isLower: bool, labels: Labels): Profile {
    Profile(sensorId, Some(warn), Some(trip), isLower, Default, labels)
  }

  const DEFAULT_PROFILES: map<string, Profile> := map[
    "TCU-100" := DefaultProfile("TS-02", 64.0, 68.0, false,
      Labels("\U{AE08}\U{D615}\U{C628}\U{B3C4}\U{C870}\U{C808}\U{AE30}", "mold_temperature", "\U{00B0}C")),
    "CH-200" := DefaultProfile("PS-01", 0.30, 0.25, true,
      Labels("\U{B0C9}\U{AC01}\U{C218}\U{CE60}\U{B7EC}", "chiller_pressure", "MPa")),
    "IH-250" := DefaultProfile("TS-01", 238.0, 245.0, false,
      Labels("\U{C0AC}\U{CD9C}\U{C131}\U{D615}\U{AE30}", "cylinder_temp", "\U{00B0}C")),
    "VI-200" := DefaultProfile("TS-03", 29.0, 32.0, false,
      Labels("\U{BE44}\U{C804}\U{AC80}\U{C0AC}\U{AE30}", "ambient_temp", "\U{00B0}C")),
    "AC-30" := DefaultProfile("PS-AIR", 0.60, 0.50, true,
      Labels("\U{C2A4}\U{D06C}\U{B958} \U{CEF4}\U{D504}\U{B808}\U{C11C}", "air_pressure", "MPa"))]

  /** `MonitorRegistry.load`: the graph's profiles, or the defaults when it yields none. */
  function Loaded(graph: map<string, Profile>): map<string, Profile> {
    if graph == map[] then DEFAULT_PROFILES else graph
  }

  function AutoProfile(x: Sample): Profile {
    Profile(x.sensorId, None, None, false, Auto, x.labels)
  }

  function NewBreaker(p: Profile): Breaker { Breaker(p, Normal, 0.0, 0.0, 0.0, []) }

  function AddBreaker(s: DetectorState, eq: string, p: Profile, sensorId: string): DetectorState {
    s.(breakers := s.breakers[eq := NewBreaker(p)], log := s.log + [MonitorRegistered(eq, sensorId)])
  }

  /** `get_or_auto_register` for a sample without a breaker: a known profile is used, an unknown
      equipment is registered once, and a sample that finds neither is dropped. */
  function Register(s: DetectorState, x: Sample): DetectorState {
    var eq := x.equipmentId;
    if eq in s.breakers || eq == "" then s
    else if eq in s.profiles then AddBreaker(s, eq, s.profiles[eq], x.sensorId)
    else if eq in s.tried then s
    else
      AddBreaker(s.(tried := s.tried + {eq}, graphCalls := s.graphCalls + [eq],
                    profiles := s.profiles[eq := AutoProfile(x)]), eq, AutoProfile(x), x.sensorId)
  }

  // ---------------------------------------------------------------- evaluation

  /** `_evaluate` */
  function Evaluate(p: Profile, value: real, z: real, slope: real): CircuitState {
    if p.warn.None? || p.trip.None? then
      if z >= STAT_ONLY_TRIP_Z then Trip else if z >= STAT_ONLY_WARNING_Z then Warning else Normal
    else
      var warn, trip := p.warn.value, p.trip.value;
      var slopeWarn := (trip - warn) / 10.0;
      if p.isLower then
        if value <= trip || z >= TRIP_Z then Trip
        else if value <= warn || z >= WARNING_Z || (slopeWarn < 0.0 && slope <= slopeWarn) then Warning
        else Normal
      else
        if value >= trip || z >= TRIP_Z then Trip
        else if value >= warn || z >= WARNING_Z || (slopeWarn > 0.0 && slope >= slopeWarn) then Warning
        else Normal
  }

  /** `deque(maxlen=30).append` */
  function Push(window: seq<real>, value: real): (r: seq<real>)
    ensures |r| == Min(WINDOW_SIZE, |window| + 1)
    ensures r[|r| - 1] == value
  {
    Last(window + [value], WINDOW_SIZE)
  }

  function Slope(window: seq<real>, stamps: seq<real>): real
    requires window != [] && stamps != []
  {
    var span := stamps[|stamps| - 1] - stamps[0];
    if |window| >= MIN_SAMPLES && span > MIN_TIME_SPAN then (window[|window| - 1] - window[0]) / span else 0.0
  }

  function Key(eq: string, sensorId: string): string { eq + ":" + sensorId }

  function Lookup(m: map<string, seq<real>>, key: string): seq<real> { if key in m then m[key] else [] }

  function SensorOf(b: Breaker, x: Sample): string { if x.sensorId == "" then b.profile.sensorId else x.sensorId }

  /** The window that sample `x` completes. */
  function NextWindow(s: DetectorState, b: Breaker, x: Sample): (r: seq<real>)
    ensures r != []
  {
    Push(Lookup(s.windows, Key(x.equipmentId, SensorOf(b, x))), x.value)
  }

  function NextStamps(s: DetectorState, b: Breaker, x: Sample): (r: seq<real>)
    ensures r != []
  {
    Push(Lookup(s.stamps, Key(x.equipmentId, SensorOf(b, x))), x.now)
  }

  /** The breaker after sample `x` completed `window`; a tripped breaker stays tripped. */
  function NextBreaker(b: Breaker, x: Sample, window: seq<real>, stamps: seq<real>): Breaker
    requires window != [] && stamps != []
  {
    var z, slope := ZScore(window, x.deviation), Slope(window, stamps);
    var verdict := Evaluate(b.profile, x.value, z, slope);
    Breaker(b.profile, if b.state == Trip then Trip else verdict, x.value, z, slope, Push(b.recent, x.value))
  }

  function RaisedAlerts(b: Breaker, after: Breaker, x: Sample): seq<Alert> {
    if after.state != Normal && after.state != b.state
    then [Alert(x.equipmentId, SensorOf(b, x), x.value, after.state, after.z)] else []
  }

  function AlertEvents(alerts: seq<Alert>): seq<Event> {
    if alerts == [] then [] else AlertEvents(alerts[..|alerts| - 1]) + [AlertRaised(alerts[|alerts| - 1])]
  }

  /** `_process_sample` once its breaker is known. */
  function Feed(s: DetectorState, x: Sample): DetectorState
    requires x.equipmentId in s.breakers
  {
    var eq := x.equipmentId;
    var b := s.breakers[eq];
    var key, window, stamps := Key(eq, SensorOf(b, x)), NextWindow(s, b, x), NextStamps(s, b, x);
    var after := NextBreaker(b, x, window, stamps);
    var raised := RaisedAlerts(b, after, x);
    s.(breakers := s.breakers[eq := after], windows := s.windows[key := window], stamps := s.stamps[key := stamps],
       alerts := s.alerts + raised,
       log := s.log + AlertEvents(raised)
              + [Telemetry(eq, SensorOf(b, x), x.value, after.z, after.slope, after.state)])
  }

  function Process(s: DetectorState, x: Sample): DetectorState {
    var r := Register(s, x);
    if x.equipmentId in r.breakers then Feed(r, x) else r
  }

  /** The keys of the windows that belong to the breakers of `eqs`. */
  function WindowKeys(breakers: map<string, Breaker>, eqs: set<string>): set<string>
    requires eqs <= breakers.Keys
  {
    set eq | eq in eqs :: Key(eq, breakers[eq].profile.sensorId)
  }

  /** A breaker after a reload that brings profile `p`. */
  function Reloaded(breakers: map<string, Breaker>, eq: string, p: Profile): Breaker {
    if eq in breakers then breakers[eq].(profile := p) else NewBreaker(p)
  }

  function ReloadBreakers(breakers: map<string, Breaker>, loaded: map<string, Profile>): map<string, Breaker> {
    map eq | eq in loaded :: Reloaded(breakers, eq, loaded[eq])
  }

  /** `reload_registry`: thresholds are replaced, state and windows kept, vanished monitors removed. */
  function DoReload(s: DetectorState, loaded: map<string, Profile>): DetectorState {
    var removed := s.breakers.Keys - loaded.Keys;
    var stale := WindowKeys(s.breakers, removed);
    s.(profiles := loaded,
       breakers := ReloadBreakers(s.breakers, loaded),
       windows := s.windows - stale, stamps := s.stamps - stale,
       log := if removed == {} then s.log else s.log + [RegistryChanged(removed)])
  }

  function Targets(s: DetectorState, target: Option<string>): set<string> {
    if target.None? then s.breakers.Keys else if target.value in s.breakers then {target.value} else {}
  }

  function ResetBreaker(b: Breaker): Breaker { b.(state := Normal, z := 0.0, slope := 0.0, recent := []) }

  function Cleared(m: map<string, seq<real>>, keys: set<string>): map<string, seq<real>> {
    map key | key in m :: if key in keys then [] else m[key]
  }

  /** `reset_circuit_breaker`; an unknown equipment is an error that changes nothing. */
  function DoReset(s: DetectorState, target: Option<string>): DetectorState {
    if target.Some? && target.value !in s.breakers then s
    else
      var targets := Targets(s, target);
      var keys := WindowKeys(s.breakers, targets);
      s.(breakers := map eq | eq in s.breakers ::
           if eq in targets then ResetBreaker(s.breakers[eq]) else s.breakers[eq],
         windows := Cleared(s.windows, keys), stamps := Cleared(s.stamps, keys),
         log := s.log + [CircuitReset(targets)])
  }

  function Step(s: DetectorState, i: Input): DetectorState {
    match i
    case Telemetered(x) => Process(s, x)
    case Reload(graph) => DoReload(s, Loaded(graph))
    case Reset(target) => DoReset(s, target)
  }

  function Run(inputs: seq<Input>): DetectorState {
    if inputs == [] then INITIAL else Step(Run(inputs[..|inputs| - 1]), inputs[|inputs| - 1])
  }

  /** The deviation that comes with a sample is the deviation of the window it completes. */
  ghost predicate Legal(s: DetectorState, i: Input) {
    i.Telemetered? && i.sample.equipmentId in Register(s, i.sample).breakers ==>
      var r := Register(s, i.sample);
      IsDeviation(i.sample.deviation, NextWindow(r, r.breakers[i.sample.equipmentId], i.sample))
  }

  ghost predicate LegalRun(inputs: seq<Input>) {
    inputs == [] ||
    (LegalRun(inputs[..|inputs| - 1]) && Legal(Run(inputs[..|inputs| - 1]), inputs[|inputs| - 1]))
  }
}
