/** What every run of the detector keeps: the TRIP latch, the exactness of alerts, and the agreement of
    breakers, profiles and graph registrations. */
module DetectorSafety {
  import opened Options
  import opened Detector

  /** Input `i` resets the breaker of `eq`. */
  predicate Resets(s: DetectorState, i: Input, eq: string) {
    i.Reset? && eq in s.breakers && (i.target.None? || i.target.value == eq)
  }

  /** Input `i` creates a breaker for `eq`. */
  predicate Registers(s: DetectorState, i: Input, eq: string) {
    eq !in s.breakers && eq in Step(s, i).breakers
  }

  predicate Tripped(s: DetectorState, eq: string) { eq in s.breakers && s.breakers[eq].state == Trip }

  lemma SampleLatches(s: DetectorState, x: Sample, eq: string)
    requires Tripped(s, eq)
    ensures Tripped(Process(s, x), eq)
  {
    var r := Register(s, x);
    assert eq in r.breakers && r.breakers[eq] == s.breakers[eq];
  }

  /** A tripped breaker leaves TRIP only by a reset or by its removal. */
  lemma TripLatches(s: DetectorState, i: Input, eq: string)
    requires Tripped(s, eq)
    ensures Tripped(Step(s, i), eq) || Resets(s, i, eq) || eq !in Step(s, i).breakers
  {
    match i
    case Telemetered(x) => SampleLatches(s, x, eq);
    case Reload(graph) =>
    case Reset(target) =>
  }

  /** Input number `n` of the run neither resets nor removes the breaker of `eq`. */
  predicate Keeps(inputs: seq<Input>, n: nat, eq: string)
    requires n < |inputs|
  {
    !Resets(Run(inputs[..n]), inputs[n], eq) && eq in Step(Run(inputs[..n]), inputs[n]).breakers
  }

  /** One more step of a run. */
  lemma RunStep(inputs: seq<Input>, n: nat)
    requires n < |inputs|
    ensures Run(inputs[..n + 1]) == Step(Run(inputs[..n]), inputs[n])
  {
    assert inputs[..n + 1][..n] == inputs[..n];
  }

  /** Once tripped, always tripped, along every continuation that neither resets nor removes the breaker. */
  lemma {:induction false} TripHolds(inputs: seq<Input>, from: nat, end: nat, eq: string)
    requires from <= end <= |inputs| && Tripped(Run(inputs[..from]), eq)
    requires forall n :: from <= n < end ==> Keeps(inputs, n, eq)
    ensures Tripped(Run(inputs[..end]), eq)
    decreases end
  {
    if from < end {
      TripHolds(inputs, from, end - 1, eq);
      assert Keeps(inputs, end - 1, eq);
      RunStep(inputs, end - 1);
      TripLatches(Run(inputs[..end - 1]), inputs[end - 1], eq);
    }
  }

  /** The sample is at or beyond the trip limit of its equipment's profile. */
  predicate BeyondTrip(s: DetectorState, x: Sample) {
    x.equipmentId in s.breakers &&
    var p := s.breakers[x.equipmentId].profile;
    p.warn.Some? && p.trip.Some? && (if p.isLower then x.value <= p.trip.value else x.value >= p.trip.value)
  }

  lemma TripsAtOnce(s: DetectorState, i: Input)
    requires i.Telemetered? && BeyondTrip(s, i.sample)
    ensures Tripped(Step(s, i), i.sample.equipmentId)
  {
  }

  /** A sample beyond the trip limit trips the breaker for good, whatever the statistics say and whatever
      follows, until the breaker is reset or removed. */
  lemma LimitTrips(inputs: seq<Input>, n: nat, end: nat)
    requires n < end <= |inputs| && inputs[n].Telemetered? && BeyondTrip(Run(inputs[..n]), inputs[n].sample)
    requires forall k :: n + 1 <= k < end ==> Keeps(inputs, k, inputs[n].sample.equipmentId)
    ensures Tripped(Run(inputs[..end]), inputs[n].sample.equipmentId)
  {
    TripsAtOnce(Run(inputs[..n]), inputs[n]);
    RunStep(inputs, n);
    TripHolds(inputs, n + 1, end, inputs[n].sample.equipmentId);
  }

  function StateOf(s: DetectorState, eq: string): CircuitState {
    if eq in s.breakers then s.breakers[eq].state else Normal
  }

  lemma RegisterStates(s: DetectorState, x: Sample)
    ensures
      var r := Register(s, x);
      r.alerts == s.alerts && (forall eq :: StateOf(r, eq) == StateOf(s, eq))
      && (forall eq :: eq in s.breakers ==> eq in r.breakers)
  {
  }

  /** The alert that a sample for `eq` must raise when it moves its breaker to `after`. */
  ghost predicate OneMore(before: seq<Alert>, after: seq<Alert>, eq: string, severity: CircuitState, value: real) {
    && |after| == |before| + 1 && after[..|before|] == before
    && after[|before|].equipmentId == eq && after[|before|].severity == severity && after[|before|].value == value
  }

  lemma FeedAlerts(s: DetectorState, x: Sample)
    requires x.equipmentId in s.breakers
    ensures
      var t, eq := Feed(s, x), x.equipmentId;
      && (forall other :: other != eq ==> StateOf(t, other) == StateOf(s, other))
      && (if StateOf(t, eq) != StateOf(s, eq) && StateOf(t, eq) != Normal
          then OneMore(s.alerts, t.alerts, eq, StateOf(t, eq), x.value) else t.alerts == s.alerts)
  {
  }

  /** Alerts fire exactly on entry to WARNING or TRIP: a sample that moves its breaker to one of these
      states from another one adds one alert, every other input adds none. */
  lemma AlertsExact(s: DetectorState, i: Input)
    ensures
      var t := Step(s, i);
      if i.Telemetered? && StateOf(t, i.sample.equipmentId) !in {StateOf(s, i.sample.equipmentId), Normal} then
        OneMore(s.alerts, t.alerts, i.sample.equipmentId, StateOf(t, i.sample.equipmentId), i.sample.value)
      else t.alerts == s.alerts
  {
    match i
    case Telemetered(x) =>
      RegisterStates(s, x);
      if x.equipmentId in Register(s, x).breakers {
        FeedAlerts(Register(s, x), x);
      }
    case Reload(graph) =>
    case Reset(target) =>
  }

  /** The entry of a breaker into WARNING or TRIP, by a sample of some value. */
  datatype Entry = Entry(equipmentId: string, state: CircuitState, value: real)

  /** The entries that input `i` causes. */
  function Entered(s: DetectorState, i: Input): seq<Entry> {
    if i.Telemetered? && StateOf(Step(s, i), i.sample.equipmentId) !in {StateOf(s, i.sample.equipmentId), Normal}
    then [Entry(i.sample.equipmentId, StateOf(Step(s, i), i.sample.equipmentId), i.sample.value)] else []
  }

  /** All entries of a run, in order. */
  function Entries(inputs: seq<Input>): seq<Entry> {
    if inputs == [] then []
    else Entries(inputs[..|inputs| - 1]) + Entered(Run(inputs[..|inputs| - 1]), inputs[|inputs| - 1])
  }

  /** Alert number `i` announces entry number `i`, and there are no others. */
  predicate Announce(alerts: seq<Alert>, entries: seq<Entry>) {
    && |alerts| == |entries|
    && (forall i :: 0 <= i < |alerts| ==>
          entries[i] == Entry(alerts[i].equipmentId, alerts[i].severity, alerts[i].value))
  }

  lemma AnnounceMore(before: seq<Alert>, after: seq<Alert>, entries: seq<Entry>, e: Entry)
    requires Announce(before, entries) && OneMore(before, after, e.equipmentId, e.state, e.value)
    ensures Announce(after, entries + [e])
  {
    assert forall i :: 0 <= i < |before| ==> after[i] == after[..|before|][i];
  }

  /** The alerts of a run are exactly its entries into WARNING or TRIP: one each, in order. */
  lemma {:induction false} AlertTrace(inputs: seq<Input>)
    ensures Announce(Run(inputs).alerts, Entries(inputs))
  {
    if inputs != [] {
      var s, i := Run(inputs[..|inputs| - 1]), inputs[|inputs| - 1];
      AlertTrace(inputs[..|inputs| - 1]);
      AlertsExact(s, i);
      if Entered(s, i) == [] {
        assert Entries(inputs) == Entries(inputs[..|inputs| - 1]);
      } else {
        AnnounceMore(s.alerts, Step(s, i).alerts, Entries(inputs[..|inputs| - 1]), Entered(s, i)[0]);
      }
    }
  }

  /** A step that neither feeds, resets nor removes a breaker keeps its state. */
  lemma StateKept(s: DetectorState, i: Input, eq: string)
    requires eq in s.breakers && eq in Step(s, i).breakers
    requires !(i.Telemetered? && i.sample.equipmentId == eq) && !Resets(s, i, eq)
    ensures StateOf(Step(s, i), eq) == StateOf(s, eq)
  {
    match i
    case Telemetered(x) =>
      RegisterStates(s, x);
      if x.equipmentId in Register(s, x).breakers {
        FeedAlerts(Register(s, x), x);
      }
    case Reload(graph) =>
    case Reset(target) =>
  }

  /** Input number `n` of the run neither feeds, resets nor removes the breaker of `eq`. */
  predicate Passes(inputs: seq<Input>, n: nat, eq: string)
    requires n < |inputs|
  {
    Keeps(inputs, n, eq) && !(inputs[n].Telemetered? && inputs[n].sample.equipmentId == eq)
  }

  /** Along every stretch of a run without a sample for the equipment, a reset or its removal, its breaker
      keeps its state, however often the registry is reloaded. */
  lemma {:induction false} StateHolds(inputs: seq<Input>, from: nat, end: nat, eq: string)
    requires from <= end <= |inputs| && eq in Run(inputs[..from]).breakers
    requires forall n :: from <= n < end ==> Passes(inputs, n, eq)
    ensures eq in Run(inputs[..end]).breakers
    ensures StateOf(Run(inputs[..end]), eq) == StateOf(Run(inputs[..from]), eq)
    decreases end
  {
    if from < end {
      StateHolds(inputs, from, end - 1, eq);
      assert Passes(inputs, end - 1, eq);
      RunStep(inputs, end - 1);
      StateKept(Run(inputs[..end - 1]), inputs[end - 1], eq);
    }
  }

  function CountTrips(alerts: seq<Alert>, eq: string): nat {
    if alerts == [] then 0
    else
      var a := alerts[|alerts| - 1];
      CountTrips(alerts[..|alerts| - 1], eq) + (if a.equipmentId == eq && a.severity == Trip then 1 else 0)
  }

  function CountResets(inputs: seq<Input>, eq: string): nat {
    if inputs == [] then 0
    else
      var n := |inputs| - 1;
      CountResets(inputs[..n], eq) + (if Resets(Run(inputs[..n]), inputs[n], eq) then 1 else 0)
  }

  function CountRegistrations(inputs: seq<Input>, eq: string): nat {
    if inputs == [] then 0
    else
      var n := |inputs| - 1;
      CountRegistrations(inputs[..n], eq) + (if Registers(Run(inputs[..n]), inputs[n], eq) then 1 else 0)
  }

  /** One if the breaker of `eq` could still trip. */
  function Armed(s: DetectorState, eq: string): nat {
    if eq in s.breakers && s.breakers[eq].state != Trip then 1 else 0
  }

  lemma OneMoreTrip(before: seq<Alert>, after: seq<Alert>, eq: string, severity: CircuitState, value: real,
                    other: string)
    requires OneMore(before, after, eq, severity, value)
    ensures CountTrips(after, other) == CountTrips(before, other) + (if eq == other && severity == Trip then 1 else 0)
  {
    assert after[..|after| - 1] == before;
  }

  /** The states decide how armed a breaker is. */
  lemma ArmedStep(s: DetectorState, i: Input, eq: string)
    ensures
      var t := Step(s, i);
      Armed(t, eq) <= Armed(s, eq) + (if Resets(s, i, eq) then 1 else 0) + (if Registers(s, i, eq) then 1 else 0)
    ensures
      var t := Step(s, i);
      Tripped(t, eq) && StateOf(s, eq) != Trip ==>
        1 <= Armed(s, eq) + (if Resets(s, i, eq) then 1 else 0) + (if Registers(s, i, eq) then 1 else 0)
  {
    if eq in s.breakers && eq in Step(s, i).breakers && s.breakers[eq].state == Trip {
      TripLatches(s, i, eq);
    }
  }

  lemma TripStep(s: DetectorState, i: Input, eq: string)
    ensures CountTrips(Step(s, i).alerts, eq) + Armed(Step(s, i), eq)
         <= CountTrips(s.alerts, eq) + Armed(s, eq)
            + (if Resets(s, i, eq) then 1 else 0) + (if Registers(s, i, eq) then 1 else 0)
  {
    AlertsExact(s, i);
    ArmedStep(s, i, eq);
    var t := Step(s, i);
    if t.alerts != s.alerts {
      var id := i.sample.equipmentId;
      OneMoreTrip(s.alerts, t.alerts, id, StateOf(t, id), i.sample.value, eq);
    }
  }

  /** An equipment raises at most one TRIP alert per registration and reset of its breaker. */
  lemma {:induction false} TripAlertsBounded(inputs: seq<Input>, eq: string)
    ensures CountTrips(Run(inputs).alerts, eq) + Armed(Run(inputs), eq)
         <= CountRegistrations(inputs, eq) + CountResets(inputs, eq)
  {
    if inputs != [] {
      var n := |inputs| - 1;
      TripAlertsBounded(inputs[..n], eq);
      TripStep(Run(inputs[..n]), inputs[n], eq);
    }
  }

  // ---------------------------------------------------------------- registry agreement

  /** Breakers and profiles have the same equipments, the graph was asked at most once for each,
      and only for equipments on record as tried. */
  ghost predicate Agrees(s: DetectorState) {
    && s.breakers.Keys == s.profiles.Keys
    && (forall i, j :: 0 <= i < j < |s.graphCalls| ==> s.graphCalls[i] != s.graphCalls[j])
    && (forall eq :: eq in s.graphCalls <==> eq in s.tried)
    && (forall eq :: eq in s.breakers ==> s.breakers[eq].profile == s.profiles[eq])
    && s.windows.Keys == s.stamps.Keys
    && (forall k :: k in s.windows ==> |s.windows[k]| == |s.stamps[k]| <= WINDOW_SIZE)
  }

  lemma RegisterAgrees(s: DetectorState, x: Sample)
    requires Agrees(s)
    ensures Agrees(Register(s, x))
    ensures Register(s, x).windows == s.windows && Register(s, x).stamps == s.stamps
  {
  }

  lemma FeedAgrees(s: DetectorState, x: Sample)
    requires Agrees(s) && x.equipmentId in s.breakers
    ensures Agrees(Feed(s, x))
  {
  }

  lemma ReloadAgrees(s: DetectorState, loaded: map<string, Profile>)
    requires Agrees(s)
    ensures Agrees(DoReload(s, loaded))
  {
  }

  lemma ResetAgrees(s: DetectorState, target: Option<string>)
    requires Agrees(s)
    ensures Agrees(DoReset(s, target))
  {
  }

  /** In every reachable state breaker keys equal profile keys, each breaker carries its profile's limits,
      every timestamp window is as long as its value window, and each equipment was registered in the
      graph at most once. */
  lemma {:induction false} RegistryAgrees(inputs: seq<Input>)
    ensures Agrees(Run(inputs))
  {
    if inputs != [] {
      var s, i := Run(inputs[..|inputs| - 1]), inputs[|inputs| - 1];
      RegistryAgrees(inputs[..|inputs| - 1]);
      match i
      case Telemetered(x) =>
        RegisterAgrees(s, x);
        if x.equipmentId in Register(s, x).breakers {
          FeedAgrees(Register(s, x), x);
        }
      case Reload(graph) => ReloadAgrees(s, Loaded(graph));
      case Reset(target) => ResetAgrees(s, target);
    }
  }
}
