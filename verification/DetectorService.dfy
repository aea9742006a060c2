/** The mutable detector object. Its methods refine the steps of the state machine in `Detector`,
    and its broadcasts go through the fan-out hub. */
module DetectorService {
  import opened Options
  import opened Text
  import opened Statistics
  import opened Detector
  import opened Fanout

  /** The breakers while a reload has still to visit the profiles in `todo`. */
  ghost function Visited(before: map<string, Breaker>, loaded: map<string, Profile>, todo: set<string>)
      : map<string, Breaker>
  {
    map eq | eq in before.Keys + (loaded.Keys - todo) ::
      if eq in loaded && eq !in todo then Reloaded(before, eq, loaded[eq]) else before[eq]
  }

  lemma VisitOne(before: map<string, Breaker>, loaded: map<string, Profile>, todo: set<string>, eq: string)
    requires eq in todo && todo <= loaded.Keys
    ensures eq in Visited(before, loaded, todo) <==> eq in before
    ensures eq in before ==> Visited(before, loaded, todo)[eq] == before[eq]
    ensures Visited(before, loaded, todo - {eq})
         == Visited(before, loaded, todo)[eq := Reloaded(before, eq, loaded[eq])]
  {
  }

  ghost function ResetSome(before: map<string, Breaker>, done: set<string>): map<string, Breaker> {
    map eq | eq in before :: if eq in done then ResetBreaker(before[eq]) else before[eq]
  }

  lemma ClearOne(m: map<string, seq<real>>, keys: set<string>, key: string)
    ensures Cleared(m, keys + {key}) == if key in m then Cleared(m, keys)[key := []] else Cleared(m, keys)
    ensures Cleared(m, keys).Keys == m.Keys
  {
  }

  lemma OneMoreKey(breakers: map<string, Breaker>, done: set<string>, eq: string)
    requires done <= breakers.Keys && eq in breakers
    ensures WindowKeys(breakers, done + {eq}) == WindowKeys(breakers, done) + {Key(eq, breakers[eq].profile.sensorId)}
  {
  }

  lemma SameKeys(bs: map<string, Breaker>, cs: map<string, Breaker>, eqs: set<string>)
    requires eqs <= bs.Keys && eqs <= cs.Keys && forall eq :: eq in eqs ==> cs[eq] == bs[eq]
    ensures WindowKeys(cs, eqs) == WindowKeys(bs, eqs)
  {
  }

  lemma AllVisited(before: map<string, Breaker>, loaded: map<string, Profile>)
    ensures Visited(before, loaded, {}) - (before.Keys - loaded.Keys) == ReloadBreakers(before, loaded)
    ensures forall eq :: eq in before && eq !in loaded ==> Visited(before, loaded, {})[eq] == before[eq]
    ensures Visited(before, loaded, {}).Keys == before.Keys + loaded.Keys
  {
  }

  class AnomalyDetector {
    var profiles: map<string, Profile>
    var autoRegistered: set<string>
    var breakers: map<string, Breaker>
    var windows: map<string, seq<real>>
    var timestamps: map<string, seq<real>>
    var recentAlerts: seq<Alert>
    const hub: Hub<Event>
    ghost var graphCalls: seq<string>
    ghost var allAlerts: seq<Alert>

    ghost function Abs(): DetectorState
      reads this, hub
    {
      DetectorState(profiles, autoRegistered, graphCalls, breakers, windows, timestamps, allAlerts, hub.history)
    }

    ghost predicate Valid()
      reads this, hub
    {
      hub.Valid() && recentAlerts == Last(allAlerts, 50) && windows.Keys == timestamps.Keys
    }

    constructor ()
      ensures Valid() && fresh(hub) && Abs() == INITIAL
    {
      profiles, autoRegistered, breakers := map[], {}, map[];
      windows, timestamps, recentAlerts := map[], map[], [];
      hub := new Hub<Event>();
      graphCalls, allAlerts := [], [];
    }

    /** `MonitorRegistry.get_or_auto_register` */
    method GetOrAutoRegister(x: Sample) returns (profile: Option<Profile>)
      modifies this`profiles, this`autoRegistered, this`graphCalls
      ensures
        var s, eq := old(Abs()), x.equipmentId;
        if eq == "" || (eq !in s.profiles && eq in s.tried) then profile == None && Abs() == s
        else if eq in s.profiles then profile == Some(s.profiles[eq]) && Abs() == s
        else profile == Some(AutoProfile(x))
             && Abs() == s.(tried := s.tried + {eq}, graphCalls := s.graphCalls + [eq],
                            profiles := s.profiles[eq := AutoProfile(x)])
    {
      var eq := x.equipmentId;
      if eq == "" { return None; }
      if eq in profiles { return Some(profiles[eq]); }
      if eq in autoRegistered {
        return None;
      }
      autoRegistered := autoRegistered + {eq};
      graphCalls := graphCalls + [eq];
      var auto := AutoProfile(x);
      profiles := profiles[eq := auto];
      profile := Some(auto);
    }

    /** `_process_sample` */
    method ProcessSample(x: Sample)
      requires Valid()
      modifies this, hub
      ensures Valid() && Abs() == Process(old(Abs()), x)
    {
      var eq := x.equipmentId;
      if eq !in breakers {
        var profile := GetOrAutoRegister(x);
        if profile.None? { return; }
        breakers := breakers[eq := NewBreaker(profile.value)];
        hub.Broadcast(MonitorRegistered(eq, x.sensorId));
      }
      assert Abs() == Register(old(Abs()), x);
      FeedSample(x);
    }

    /** The part of `_process_sample` after the breaker is found. */
    method FeedSample(x: Sample)
      requires Valid() && x.equipmentId in breakers
      modifies this, hub
      ensures Valid() && Abs() == Feed(old(Abs()), x)
    {
      ghost var s := Abs();
      var sensorId, prevState, after := UpdateBreaker(x);
      var alert := Alert(x.equipmentId, sensorId, x.value, after.state, after.z);
      if (after.state == Warning || after.state == Trip) && prevState != after.state {
        TriggerAlert(alert);
        assert AlertEvents([alert]) == [AlertRaised(alert)] by { assert [alert][..0] == []; }
      }
      hub.Broadcast(Telemetry(x.equipmentId, sensorId, x.value, after.z, after.slope, after.state));
      assert breakers == Feed(s, x).breakers && windows == Feed(s, x).windows && timestamps == Feed(s, x).stamps;
    }

    /** The window update, the statistics and the state decision. */
    method UpdateBreaker(x: Sample) returns (sensorId: string, prevState: CircuitState, after: Breaker)
      requires x.equipmentId in breakers && windows.Keys == timestamps.Keys
      modifies this`breakers, this`windows, this`timestamps
      ensures windows.Keys == timestamps.Keys
      ensures
        var s := old(Abs());
        var b := s.breakers[x.equipmentId];
        && sensorId == SensorOf(b, x) && prevState == b.state
        && after == NextBreaker(b, x, NextWindow(s, b, x), NextStamps(s, b, x))
        && breakers == s.breakers[x.equipmentId := after]
        && windows == s.windows[Key(x.equipmentId, sensorId) := NextWindow(s, b, x)]
        && timestamps == s.stamps[Key(x.equipmentId, sensorId) := NextStamps(s, b, x)]
    {
      var cb := breakers[x.equipmentId];
      sensorId := x.sensorId;
      if sensorId == "" {
        sensorId := cb.profile.sensorId;
      }
      var window, stamps := AppendToWindow(Key(x.equipmentId, sensorId), x.value, x.now);
      prevState := cb.state;
      after := Decide(cb, x, window, stamps);
      breakers := breakers[x.equipmentId := after];
    }

    method AppendToWindow(key: string, value: real, now: real) returns (window: seq<real>, stamps: seq<real>)
      requires windows.Keys == timestamps.Keys
      modifies this`windows, this`timestamps
      ensures windows.Keys == timestamps.Keys
      ensures window == Push(Lookup(old(windows), key), value) && stamps == Push(Lookup(old(timestamps), key), now)
      ensures windows == old(windows)[key := window] && timestamps == old(timestamps)[key := stamps]
    {
      if key !in windows {
        windows := windows[key := []];
        timestamps := timestamps[key := []];
      }
      window, stamps := Push(windows[key], value), Push(timestamps[key], now);
      windows := windows[key := window];
      timestamps := timestamps[key := stamps];
    }

    static method Decide(cb: Breaker, x: Sample, window: seq<real>, stamps: seq<real>) returns (after: Breaker)
      requires window != [] && stamps != []
      ensures after == NextBreaker(cb, x, window, stamps)
    {
      var z, slope := ZScore(window, x.deviation), Slope(window, stamps);
      var newState := Evaluate(cb.profile, x.value, z, slope);
      if cb.state == Trip && newState != Trip {
        newState := Trip;
      }
      after := Breaker(cb.profile, newState, x.value, z, slope, Push(cb.recent, x.value));
    }

    /** `_trigger_early_warning_alert`, without the guide text it attaches */
    method TriggerAlert(alert: Alert)
      requires Valid()
      modifies this`recentAlerts, this`allAlerts, hub
      ensures Valid()
      ensures Abs() == old(Abs()).(alerts := old(allAlerts) + [alert], log := old(hub.history) + [AlertRaised(alert)])
    {
      recentAlerts := Last(recentAlerts + [alert], ALERT_LIMIT);
      allAlerts := allAlerts + [alert];
      hub.Broadcast(AlertRaised(alert));
    }

    /** `reload_registry`; `graph` is what the graph database yields, empty when it fails. */
    method ReloadRegistry(graph: map<string, Profile>)
      requires Valid()
      modifies this, hub
      ensures Valid() && Abs() == DoReload(old(Abs()), Loaded(graph))
    {
      ghost var s := Abs();
      profiles := Loaded(graph);
      var removed := ReplaceBreakers(profiles);
      if removed != {} {
        hub.Broadcast(RegistryChanged(removed));
      }
      assert Abs() == DoReload(s, Loaded(graph));
    }

    /** Updates the breakers to the loaded profiles; the result are the removed equipments. */
    method ReplaceBreakers(loaded: map<string, Profile>) returns (removed: set<string>)
      requires windows.Keys == timestamps.Keys
      modifies this`breakers, this`windows, this`timestamps
      ensures removed == old(breakers).Keys - loaded.Keys && windows.Keys == timestamps.Keys
      ensures
        var t := DoReload(old(Abs()), loaded);
        breakers == t.breakers && windows == t.windows && timestamps == t.stamps
    {
      ghost var before := breakers;
      VisitProfiles(loaded);
      AllVisited(before, loaded);
      removed := set eq | eq in breakers && eq !in loaded;
      assert removed == before.Keys - loaded.Keys;
      RemoveBreakers(removed);
      SameKeys(before, Visited(before, loaded, {}), removed);
    }

    method VisitProfiles(loaded: map<string, Profile>)
      modifies this`breakers
      ensures breakers == Visited(old(breakers), loaded, {})
    {
      var todo := loaded.Keys;
      assert breakers == Visited(breakers, loaded, todo);
      while todo != {}
        invariant todo <= loaded.Keys
        invariant breakers == Visited(old(breakers), loaded, todo)
        decreases todo
      {
        var eq :| eq in todo;
        VisitOne(old(breakers), loaded, todo, eq);
        todo := todo - {eq};
        breakers := breakers[eq := Reloaded(breakers, eq, loaded[eq])];
      }
    }

    method RemoveBreakers(removed: set<string>)
      requires removed <= breakers.Keys
      modifies this`breakers, this`windows, this`timestamps
      ensures breakers == old(breakers) - removed
      ensures windows == old(windows) - WindowKeys(old(breakers), removed)
      ensures timestamps == old(timestamps) - WindowKeys(old(breakers), removed)
    {
      ghost var before := breakers;
      var todo := removed;
      ghost var gone: set<string> := {};
      while todo != {}
        invariant todo <= removed && gone == removed - todo
        invariant breakers == before - gone
        invariant windows == old(windows) - WindowKeys(before, gone)
        invariant timestamps == old(timestamps) - WindowKeys(before, gone)
        decreases todo
      {
        var eq :| eq in todo;
        var key := Key(eq, breakers[eq].profile.sensorId);
        breakers := breakers - {eq};
        windows := windows - {key};
        timestamps := timestamps - {key};
        OneMoreKey(before, gone, eq);
        todo := todo - {eq};
        gone := gone + {eq};
      }
      assert gone == removed;
    }

    /** `reset_circuit_breaker`; `ok` is false for an unknown equipment. */
    method ResetCircuitBreaker(target: Option<string>) returns (ok: bool)
      requires Valid()
      modifies this, hub
      ensures Valid() && Abs() == DoReset(old(Abs()), target)
      ensures ok <==> target.None? || target.value in old(breakers)
    {
      ghost var s := Abs();
      var targets: set<string>;
      if target.None? {
        targets := breakers.Keys;
      } else if target.value in breakers {
        targets := {target.value};
      } else {
        return false;
      }
      ResetTargets(targets);
      hub.Broadcast(CircuitReset(targets));
      assert targets == Targets(s, target);
      ok := true;
    }

    method ResetTargets(targets: set<string>)
      requires targets <= breakers.Keys
      modifies this`breakers, this`windows, this`timestamps
      ensures breakers == ResetSome(old(breakers), targets)
      ensures
        var keys := WindowKeys(old(breakers), targets);
        windows == Cleared(old(windows), keys) && timestamps == Cleared(old(timestamps), keys)
    {
      ghost var before, done: set<string>, keys: set<string> := breakers, {}, {};
      var todo := targets;
      while todo != {}
        invariant todo <= targets && done == targets - todo && keys == WindowKeys(before, done)
        invariant breakers == ResetSome(before, done)
        invariant windows == Cleared(old(windows), keys) && timestamps == Cleared(old(timestamps), keys)
        decreases todo
      {
        var eq :| eq in todo;
        todo := todo - {eq};
        OneMoreKey(before, done, eq);
        var key := ResetOne(eq);
        ClearOne(old(windows), keys, key);
        ClearOne(old(timestamps), keys, key);
        done, keys := done + {eq}, keys + {key};
      }
      assert done == targets;
    }

    /** Resets one breaker and clears its windows, if there are any. */
    method ResetOne(eq: string) returns (key: string)
      requires eq in breakers
      modifies this`breakers, this`windows, this`timestamps
      ensures key == Key(eq, old(breakers)[eq].profile.sensorId)
      ensures breakers == old(breakers)[eq := ResetBreaker(old(breakers)[eq])]
      ensures windows == (if key in old(windows) then old(windows)[key := []] else old(windows))
      ensures timestamps == (if key in old(timestamps) then old(timestamps)[key := []] else old(timestamps))
    {
      key := Key(eq, breakers[eq].profile.sensorId);
      breakers := breakers[eq := ResetBreaker(breakers[eq])];
      if key in windows {
        windows := windows[key := []];
      }
      if key in timestamps {
        timestamps := timestamps[key := []];
      }
    }
  }
}
