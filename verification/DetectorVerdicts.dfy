/** What single inputs do along a run, said without the functions that compute it: when a sample warns or trips,
    what it broadcasts, and what resets and reloads change. */
module DetectorVerdicts {
  import opened Options
  import opened Text
  import opened Statistics
  import opened Detector
  import opened DetectorSafety

  /** The value is at or beyond the limit. */
  predicate Beyond(value: real, limit: real, isLower: bool) { if isLower then value <= limit else value >= limit }

  /** The window is long enough for statistics, and time has passed in it. */
  predicate HasRate(window: seq<real>, stamps: seq<real>) {
    |window| >= 5 && |stamps| == |window| && stamps[|stamps| - 1] - stamps[0] > 0.000001
  }

  /** The change per second over the window. */
  function Rate(window: seq<real>, stamps: seq<real>): real
    requires HasRate(window, stamps)
  {
    (window[|window| - 1] - window[0]) / (stamps[|stamps| - 1] - stamps[0])
  }

  /** Within ten seconds, a change at this rate covers the distance between the limits, in their direction. */
  predicate Rushes(window: seq<real>, stamps: seq<real>, warn: real, trip: real, isLower: bool) {
    HasRate(window, stamps)
    && if isLower then trip < warn && 10.0 * Rate(window, stamps) <= trip - warn
       else trip > warn && 10.0 * Rate(window, stamps) >= trip - warn
  }

  /** What a sample writes into its breaker: its value, its distance from the window's mean in deviations, and the
      window's change per second. */
  predicate Measures(b: Breaker, x: Sample, window: seq<real>, stamps: seq<real>)
    requires window != []
  {
    && b.value == x.value
    && (if |window| >= 5 then b.z * (x.deviation + 0.0001) == Abs(x.value - Mean(window)) else b.z == 0.0)
    && b.slope == (if HasRate(window, stamps) then Rate(window, stamps) else 0.0)
  }

  /** The verdict on a sample: with both limits, TRIP at the trip limit or at Z 4, and at least WARNING at either
      limit, at Z 2.5 or on a rush; without a limit TRIP at Z 5 and at least WARNING at Z 3. */
  predicate Judges(b: Breaker, x: Sample, window: seq<real>, stamps: seq<real>) {
    var p := b.profile;
    if p.warn.Some? && p.trip.Some? then
      var warn, trip := p.warn.value, p.trip.value;
      && (b.state == Trip <==> Beyond(x.value, trip, p.isLower) || b.z >= 4.0)
      && (b.state != Normal <==>
            Beyond(x.value, trip, p.isLower) || Beyond(x.value, warn, p.isLower) || b.z >= 2.5
            || Rushes(window, stamps, warn, trip, p.isLower))
    else
      && (b.state == Trip <==> b.z >= 5.0)
      && (b.state != Normal <==> b.z >= 3.0)
  }

  // ---------------------------------------------------------------- a sample of a breaker

  lemma TenthOfDistance(rate: real, warn: real, trip: real)
    ensures rate >= (trip - warn) / 10.0 <==> 10.0 * rate >= trip - warn
    ensures rate <= (trip - warn) / 10.0 <==> 10.0 * rate <= trip - warn
    ensures (trip - warn) / 10.0 > 0.0 <==> trip > warn
    ensures (trip - warn) / 10.0 < 0.0 <==> trip < warn
  {
  }

  lemma SlopeIsRate(window: seq<real>, stamps: seq<real>)
    requires window != [] && |stamps| == |window|
    ensures Slope(window, stamps) == if HasRate(window, stamps) then Rate(window, stamps) else 0.0
  {
  }

  lemma ZIsDistance(window: seq<real>, x: Sample)
    requires window != [] && window[|window| - 1] == x.value
    ensures
      var z := ZScore(window, x.deviation);
      if |window| >= 5 then z * (x.deviation + 0.0001) == Abs(x.value - Mean(window)) else z == 0.0
  {
    if |window| >= 5 {
      var d, s := Abs(x.value - Mean(window)), x.deviation + 0.0001;
      assert (d / s) * s == d;
    }
  }

  lemma NextMeasures(b: Breaker, x: Sample, window: seq<real>, stamps: seq<real>)
    requires window != [] && window[|window| - 1] == x.value && |stamps| == |window|
    ensures Measures(NextBreaker(b, x, window, stamps), x, window, stamps)
  {
    ZIsDistance(window, x);
    SlopeIsRate(window, stamps);
  }

  lemma NextJudges(b: Breaker, x: Sample, window: seq<real>, stamps: seq<real>)
    requires window != [] && |stamps| == |window| && b.state != Trip
    ensures Judges(NextBreaker(b, x, window, stamps), x, window, stamps)
  {
    SlopeIsRate(window, stamps);
    if b.profile.warn.Some? && b.profile.trip.Some? {
      TenthOfDistance(Slope(window, stamps), b.profile.warn.value, b.profile.trip.value);
    }
  }

  /** The window that belongs to the breaker and the sample. */
  function WindowKey(b: Breaker, x: Sample): string {
    x.equipmentId + ":" + (if x.sensorId == "" then b.profile.sensorId else x.sensorId)
  }

  /** The value joins the window, which keeps its last 30 values. */
  predicate Joins(before: seq<real>, value: real, after: seq<real>) {
    && |after| == (if |before| < 30 then |before| + 1 else 30)
    && after == (before + [value])[|before| + 1 - |after|..]
  }

  /** What a sample makes of a breaker, now `b`, and of its window and time stamps. */
  predicate Handles(b: Breaker, wasTripped: bool, x: Sample, oldWindow: seq<real>, window: seq<real>,
                    oldStamps: seq<real>, stamps: seq<real>)
  {
    && Joins(oldWindow, x.value, window) && Joins(oldStamps, x.now, stamps) && window != []
    && Measures(b, x, window, stamps)
    && (if wasTripped then b.state == Trip else Judges(b, x, window, stamps))
  }

  lemma PushJoins(before: seq<real>, value: real)
    requires |before| <= 30
    ensures Joins(before, value, Push(before, value))
  {
  }

  lemma NextHandles(b: Breaker, x: Sample, oldWindow: seq<real>, oldStamps: seq<real>)
    requires |oldWindow| == |oldStamps| <= 30
    ensures
      var window, stamps := Push(oldWindow, x.value), Push(oldStamps, x.now);
      window != [] && stamps != []
      && Handles(NextBreaker(b, x, window, stamps), b.state == Trip, x, oldWindow, window, oldStamps, stamps)
  {
    var window, stamps := Push(oldWindow, x.value), Push(oldStamps, x.now);
    PushJoins(oldWindow, x.value);
    PushJoins(oldStamps, x.now);
    NextMeasures(b, x, window, stamps);
    if b.state != Trip {
      NextJudges(b, x, window, stamps);
    }
  }

  lemma FeedWrites(s: DetectorState, x: Sample)
    requires x.equipmentId in s.breakers
    ensures
      var t, b, key := Feed(s, x), s.breakers[x.equipmentId], WindowKey(s.breakers[x.equipmentId], x);
      && t.windows == s.windows[key := Push(Lookup(s.windows, key), x.value)]
      && t.stamps == s.stamps[key := Push(Lookup(s.stamps, key), x.now)]
      && t.breakers == s.breakers[x.equipmentId := NextBreaker(b, x, t.windows[key], t.stamps[key])]
      && t.breakers[x.equipmentId].profile == b.profile
  {
  }

  /** The sample was handled by its breaker, and touched nothing else. */
  ghost predicate Handled(s: DetectorState, t: DetectorState, x: Sample)
    requires x.equipmentId in t.breakers
  {
    var b := t.breakers[x.equipmentId];
    var key := WindowKey(b, x);
    && key in t.windows && key in t.stamps
    && t.windows == s.windows[key := t.windows[key]] && t.stamps == s.stamps[key := t.stamps[key]]
    && t.breakers == s.breakers[x.equipmentId := b]
    && Handles(b, StateOf(s, x.equipmentId) == Trip, x, Lookup(s.windows, key), t.windows[key],
               Lookup(s.stamps, key), t.stamps[key])
  }

  lemma FeedHandles(s: DetectorState, x: Sample)
    requires Agrees(s) && x.equipmentId in s.breakers
    ensures x.equipmentId in Feed(s, x).breakers && Handled(s, Feed(s, x), x)
  {
    var b := s.breakers[x.equipmentId];
    var key := WindowKey(b, x);
    FeedWrites(s, x);
    NextHandles(b, x, Lookup(s.windows, key), Lookup(s.stamps, key));
  }

  /** Registration touches no window, no other breaker, and starts in NORMAL. */
  lemma RegisterHandles(s: DetectorState, x: Sample)
    ensures
      var r, eq := Register(s, x), x.equipmentId;
      && r.windows == s.windows && r.stamps == s.stamps && StateOf(r, eq) == StateOf(s, eq)
      && (eq in r.breakers ==> r.breakers == s.breakers[eq := r.breakers[eq]])
  {
  }

  lemma HandledFromBefore(s: DetectorState, r: DetectorState, t: DetectorState, x: Sample)
    requires x.equipmentId in t.breakers && Handled(r, t, x)
    requires r.windows == s.windows && r.stamps == s.stamps && StateOf(r, x.equipmentId) == StateOf(s, x.equipmentId)
    requires x.equipmentId in r.breakers && r.breakers == s.breakers[x.equipmentId := r.breakers[x.equipmentId]]
    ensures Handled(s, t, x)
  {
  }

  lemma ProcessHandles(s: DetectorState, x: Sample)
    requires Agrees(s) && x.equipmentId in Process(s, x).breakers
    ensures Handled(s, Process(s, x), x)
  {
    var r := Register(s, x);
    RegisterAgrees(s, x);
    FeedHandles(r, x);
    RegisterHandles(s, x);
    HandledFromBefore(s, r, Process(s, x), x);
  }

  /** The deviation that comes with the sample is that of its window. */
  ghost predicate DeviatesBy(t: DetectorState, x: Sample)
    requires x.equipmentId in t.breakers
  {
    var key := WindowKey(t.breakers[x.equipmentId], x);
    key in t.windows && t.windows[key] != [] && IsDeviation(x.deviation, t.windows[key])
  }

  lemma LegalDeviates(s: DetectorState, x: Sample)
    requires Legal(s, Telemetered(x)) && x.equipmentId in Process(s, x).breakers
    ensures DeviatesBy(Process(s, x), x)
  {
    FeedWrites(Register(s, x), x);
  }

  /** Over every run: each sample of a monitored equipment joins its window, is measured against it, and is judged
      by the limits of the equipment's profile, unless the breaker has tripped before. */
  lemma SampleIsJudged(inputs: seq<Input>, n: nat)
    requires n < |inputs| && inputs[n].Telemetered?
    requires inputs[n].sample.equipmentId in Run(inputs[..n + 1]).breakers
    ensures Handled(Run(inputs[..n]), Run(inputs[..n + 1]), inputs[n].sample)
  {
    RegistryAgrees(inputs[..n]);
    RunStep(inputs, n);
    ProcessHandles(Run(inputs[..n]), inputs[n].sample);
  }

  /** In a legal run, the deviation that a sample is measured by is the deviation of its window. */
  lemma SampleDeviates(inputs: seq<Input>, n: nat)
    requires n < |inputs| && inputs[n].Telemetered? && LegalRun(inputs[..n + 1])
    requires inputs[n].sample.equipmentId in Run(inputs[..n + 1]).breakers
    ensures DeviatesBy(Run(inputs[..n + 1]), inputs[n].sample)
  {
    assert inputs[..n + 1][..n] == inputs[..n];
    RunStep(inputs, n);
    LegalDeviates(Run(inputs[..n]), inputs[n].sample);
  }

  // ---------------------------------------------------------------- what a sample broadcasts

  /** What a sample adds to the alerts: one on entry into WARNING or TRIP. */
  predicate Alerts(added: seq<Alert>, before: CircuitState, b: Breaker, x: Sample, sensorId: string) {
    added == if b.state != before && b.state != Normal
             then [Alert(x.equipmentId, sensorId, x.value, b.state, b.z)] else []
  }

  /** Subscribers are told of a new monitor, of the alert, and of the sample, in this order. */
  predicate Broadcasts(added: seq<Event>, isNew: bool, alerts: seq<Alert>, b: Breaker, x: Sample, sensorId: string) {
    added == (if isNew then [MonitorRegistered(x.equipmentId, x.sensorId)] else [])
             + (if alerts != [] then [AlertRaised(alerts[0])] else [])
             + [Telemetry(x.equipmentId, sensorId, x.value, b.z, b.slope, b.state)]
  }

  /** The step from `s` to `t` raised the right alerts and broadcast the right events. */
  ghost predicate Announces(s: DetectorState, t: DetectorState, x: Sample)
    requires x.equipmentId in t.breakers
  {
    var b := t.breakers[x.equipmentId];
    var sensorId := if x.sensorId == "" then b.profile.sensorId else x.sensorId;
    && |s.alerts| <= |t.alerts| && |s.log| <= |t.log|
    && t.alerts == s.alerts + t.alerts[|s.alerts|..] && t.log == s.log + t.log[|s.log|..]
    && Alerts(t.alerts[|s.alerts|..], StateOf(s, x.equipmentId), b, x, sensorId)
    && Broadcasts(t.log[|s.log|..], x.equipmentId !in s.breakers, t.alerts[|s.alerts|..], b, x, sensorId)
  }

  lemma AlertEvent(alerts: seq<Alert>)
    requires |alerts| <= 1
    ensures AlertEvents(alerts) == if alerts != [] then [AlertRaised(alerts[0])] else []
  {
    if alerts != [] {
      assert alerts == [alerts[0]] && AlertEvents(alerts[..0]) == [];
    }
  }

  lemma FeedLogs(s: DetectorState, x: Sample, t: DetectorState, raised: seq<Alert>)
    requires x.equipmentId in s.breakers && t == Feed(s, x)
    requires raised == t.alerts[|s.alerts|..]
    ensures
      var b := t.breakers[x.equipmentId];
      var sensorId := if x.sensorId == "" then b.profile.sensorId else x.sensorId;
      && Alerts(raised, s.breakers[x.equipmentId].state, b, x, sensorId) && t.alerts == s.alerts + raised
      && t.log == s.log + ((if raised != [] then [AlertRaised(raised[0])] else [])
                           + [Telemetry(x.equipmentId, sensorId, x.value, b.z, b.slope, b.state)])
  {
    var before := s.breakers[x.equipmentId];
    FeedWrites(s, x);
    var more := RaisedAlerts(before, t.breakers[x.equipmentId], x);
    assert t.alerts == s.alerts + more && raised == more;
    AlertEvent(more);
  }

  lemma RegisterLogs(s: DetectorState, x: Sample)
    ensures
      var r, eq := Register(s, x), x.equipmentId;
      && r.alerts == s.alerts
      && (eq in r.breakers ==>
            && r.log == s.log + (if eq in s.breakers then [] else [MonitorRegistered(eq, x.sensorId)])
            && r.breakers[eq].state == StateOf(s, eq))
  {
  }

  lemma ProcessLogs(s: DetectorState, x: Sample)
    requires x.equipmentId in Process(s, x).breakers
    ensures Announces(s, Process(s, x), x)
  {
    var r, t := Register(s, x), Process(s, x);
    RegisterLogs(s, x);
    var raised := t.alerts[|r.alerts|..];
    FeedLogs(r, x, t, raised);
    var b := t.breakers[x.equipmentId];
    var sensorId := if x.sensorId == "" then b.profile.sensorId else x.sensorId;
    var added := (if x.equipmentId in s.breakers then [] else [MonitorRegistered(x.equipmentId, x.sensorId)])
                 + (if raised != [] then [AlertRaised(raised[0])] else [])
                 + [Telemetry(x.equipmentId, sensorId, x.value, b.z, b.slope, b.state)];
    assert t.log == s.log + added;
    Announced(s, t, x, raised, added, sensorId);
  }

  lemma Announced(s: DetectorState, t: DetectorState, x: Sample, raised: seq<Alert>, added: seq<Event>,
                  sensorId: string)
    requires x.equipmentId in t.breakers && t.alerts == s.alerts + raised && t.log == s.log + added
    requires sensorId == if x.sensorId == "" then t.breakers[x.equipmentId].profile.sensorId else x.sensorId
    requires Alerts(raised, StateOf(s, x.equipmentId), t.breakers[x.equipmentId], x, sensorId)
    requires Broadcasts(added, x.equipmentId !in s.breakers, raised, t.breakers[x.equipmentId], x, sensorId)
    ensures Announces(s, t, x)
  {
    assert t.alerts[|s.alerts|..] == raised && t.log[|s.log|..] == added;
  }

  /** Over every run: each sample of a monitored equipment is broadcast with what it has done to its breaker, and it
      raises and broadcasts an alert exactly when it moves the breaker into WARNING or TRIP. */
  lemma SampleIsBroadcast(inputs: seq<Input>, n: nat)
    requires n < |inputs| && inputs[n].Telemetered?
    requires inputs[n].sample.equipmentId in Run(inputs[..n + 1]).breakers
    ensures Announces(Run(inputs[..n]), Run(inputs[..n + 1]), inputs[n].sample)
  {
    RunStep(inputs, n);
    var s, x := Run(inputs[..n]), inputs[n].sample;
    ProcessLogs(s, x);
  }

  /** Over every run: a sample finds no monitor exactly when its equipment has no breaker and no id or was
      registered before, and then it changes nothing; a sample of another unknown equipment registers it, with a
      profile without limits. */
  lemma SampleIsRegistered(inputs: seq<Input>, n: nat)
    requires n < |inputs| && inputs[n].Telemetered?
    ensures
      var s, t, x := Run(inputs[..n]), Run(inputs[..n + 1]), inputs[n].sample;
      var eq := x.equipmentId;
      if eq in s.breakers then t.profiles == s.profiles && t.graphCalls == s.graphCalls
      else if eq == "" || eq in s.tried then t == s
      else
        && t.profiles == s.profiles[eq := Profile(x.sensorId, None, None, false, Auto, x.labels)]
        && t.graphCalls == s.graphCalls + [eq]
        && eq in t.breakers && t.breakers[eq].profile == t.profiles[eq]
  {
    RegistryAgrees(inputs[..n]);
    RunStep(inputs, n);
  }

  // ---------------------------------------------------------------- resets and reloads

  /** The reset breaker: NORMAL, with nothing measured, under its former profile. */
  predicate IsReset(before: Breaker, after: Breaker) {
    after.state == Normal && after.z == 0.0 && after.slope == 0.0 && after.recent == []
    && after.profile == before.profile && after.value == before.value
  }

  /** Over every run: after a reset each breaker it targets is NORMAL and has no window, no matter in which state it
      was; other breakers and their windows are as before, and an unknown target changes nothing. */
  lemma ResetClears(inputs: seq<Input>, n: nat)
    requires n < |inputs| && inputs[n].Reset?
    ensures
      var s, t, target := Run(inputs[..n]), Run(inputs[..n + 1]), inputs[n].target;
      && t.breakers.Keys == s.breakers.Keys && t.windows.Keys == s.windows.Keys && t.profiles == s.profiles
      && (forall eq :: eq in s.breakers ==>
            if target == None || target == Some(eq) then
              && IsReset(s.breakers[eq], t.breakers[eq])
              && var key := eq + ":" + s.breakers[eq].profile.sensorId;
                 key in t.windows ==> t.windows[key] == [] && key in t.stamps ==> t.stamps[key] == []
            else t.breakers[eq] == s.breakers[eq])
      && (target.Some? && target.value !in s.breakers ==> t == s)
  {
    RunStep(inputs, n);
    var s, t, target := Run(inputs[..n]), Run(inputs[..n + 1]), inputs[n].target;
    forall eq | eq in s.breakers && (target == None || target == Some(eq))
      ensures
        var key := eq + ":" + s.breakers[eq].profile.sensorId;
        key in t.windows ==> t.windows[key] == [] && key in t.stamps ==> t.stamps[key] == []
    {
      assert Key(eq, s.breakers[eq].profile.sensorId) in WindowKeys(s.breakers, Targets(s, target));
    }
  }

  /** Over every run: after a reload the monitors are those of the graph, or the defaults if it yields none; known
      breakers only get their new profile, new ones start in NORMAL, and the windows of remaining monitors are kept
      unless a removed monitor has the same window key. */
  lemma ReloadReplaces(inputs: seq<Input>, n: nat)
    requires n < |inputs| && inputs[n].Reload?
    ensures
      var s, t, graph := Run(inputs[..n]), Run(inputs[..n + 1]), inputs[n].graph;
      var removed := s.breakers.Keys - t.breakers.Keys;
      && (graph != map[] ==> t.profiles == graph) && (graph == map[] ==> t.profiles == DEFAULT_PROFILES)
      && t.breakers.Keys == t.profiles.Keys
      && (forall eq :: eq in t.breakers && eq in s.breakers ==>
            t.breakers[eq] == s.breakers[eq].(profile := t.profiles[eq]))
      && (forall eq :: eq in t.breakers && eq !in s.breakers ==>
            t.breakers[eq] == Breaker(t.profiles[eq], Normal, 0.0, 0.0, 0.0, []))
      && (forall key :: key in t.windows ==> key in s.windows && t.windows[key] == s.windows[key])
      && (forall key :: key in s.windows ==>
            (key !in t.windows <==> exists eq :: eq in removed && key == eq + ":" + s.breakers[eq].profile.sensorId))
      && t.alerts == s.alerts
      && t.log == if removed == {} then s.log else s.log + [RegistryChanged(removed)]
  {
    RunStep(inputs, n);
    var s, t := Run(inputs[..n]), Run(inputs[..n + 1]);
    var removed := s.breakers.Keys - t.breakers.Keys;
    assert forall key :: key in WindowKeys(s.breakers, removed)
                     <==> exists eq :: eq in removed && key == eq + ":" + s.breakers[eq].profile.sensorId;
  }
}
