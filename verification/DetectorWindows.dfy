/** The windows of the detector refine a simple idea: the last 30 values since the last reset or
    registration. */
module DetectorWindows {
  import opened Options
  import opened Text
  import opened Statistics
  import opened Detector
  import opened DetectorSafety

  /** The window key of a breaker. */
  function KeyOf(s: DetectorState, eq: string): string
    requires eq in s.breakers
  {
    Key(eq, s.breakers[eq].profile.sensorId)
  }

  /** No two breakers share a window key. Ids without colons never do, see `PlainIdsApart`. */
  predicate Apart(s: DetectorState) {
    forall e1, e2 :: e1 in s.breakers && e2 in s.breakers && KeyOf(s, e1) == KeyOf(s, e2) ==> e1 == e2
  }

  /** The sample names its breaker's own sensor, or none. */
  predicate OwnSensor(s: DetectorState, x: Sample)
    requires x.equipmentId in s.breakers
  {
    x.sensorId in {"", s.breakers[x.equipmentId].profile.sensorId}
  }

  /** Samples carry their breaker's own sensor id (or none), a reload does not change it, and the window keys
      of the breakers are kept apart. */
  predicate Disciplined(s: DetectorState, i: Input) {
    match i
    case Telemetered(x) =>
      Apart(Register(s, x)) && (x.equipmentId in s.breakers ==> OwnSensor(s, x))
    case Reload(graph) =>
      Apart(DoReload(s, Loaded(graph)))
      && (forall eq :: eq in Loaded(graph) && eq in s.breakers ==>
            Loaded(graph)[eq].sensorId == s.breakers[eq].profile.sensorId)
    case Reset(_) => true
  }

  ghost predicate DisciplinedRun(inputs: seq<Input>) {
    inputs == [] ||
    (DisciplinedRun(inputs[..|inputs| - 1]) && Disciplined(Run(inputs[..|inputs| - 1]), inputs[|inputs| - 1]))
  }

  /** How input `i` changes the values fed to `eq` since its last reset or registration. */
  function FedStep(s: DetectorState, i: Input, eq: string, fed: seq<real>): seq<real> {
    if eq !in Step(s, i).breakers || Resets(s, i, eq) then []
    else
      var before := if eq in s.breakers then fed else [];
      if i.Telemetered? && i.sample.equipmentId == eq then before + [i.sample.value] else before
  }

  /** The values fed to `eq` since the last reset or registration of its breaker. */
  function Fed(inputs: seq<Input>, eq: string): seq<real> {
    if inputs == [] then []
    else FedStep(Run(inputs[..|inputs| - 1]), inputs[|inputs| - 1], eq, Fed(inputs[..|inputs| - 1], eq))
  }

  /** Every window belongs to a present breaker's own sensor, and to no other one. */
  ghost predicate Tidy(s: DetectorState) {
    && Agrees(s)
    && Apart(s)
    && (forall k :: k in s.windows ==> exists eq :: eq in s.breakers && k == KeyOf(s, eq))
  }

  ghost predicate WindowIs(s: DetectorState, eq: string, fed: seq<real>) {
    eq in s.breakers ==>
      && Lookup(s.windows, KeyOf(s, eq)) == Last(fed, WINDOW_SIZE)
      && s.breakers[eq].recent == Last(fed, WINDOW_SIZE)
  }

  lemma PushLast(fed: seq<real>, value: real)
    ensures Push(Last(fed, WINDOW_SIZE), value) == Last(fed + [value], WINDOW_SIZE)
  {
  }

  /** A breaker that is about to be added has no window yet. */
  lemma NoStaleWindow(s: DetectorState, t: DetectorState, eq: string)
    requires Tidy(s) && Apart(t) && eq !in s.breakers && eq in t.breakers
    requires forall e :: e in s.breakers ==> e in t.breakers && t.breakers[e] == s.breakers[e]
    ensures KeyOf(t, eq) !in s.windows
  {
    forall e | e in s.breakers ensures KeyOf(s, e) != KeyOf(t, eq) {
      assert KeyOf(t, e) == KeyOf(s, e);
    }
  }

  lemma AddBreakerTidy(s: DetectorState, t: DetectorState, eq: string)
    requires Tidy(s) && Agrees(t) && Apart(t) && eq !in s.breakers
    requires t.windows == s.windows && t.breakers.Keys == s.breakers.Keys + {eq}
    requires forall e :: e in s.breakers ==> t.breakers[e] == s.breakers[e]
    ensures Tidy(t)
  {
    forall k | k in t.windows ensures exists e :: e in t.breakers && k == KeyOf(t, e) {
      var e :| e in s.breakers && k == KeyOf(s, e);
      assert k == KeyOf(t, e);
    }
  }

  lemma RegisterWindows(s: DetectorState, x: Sample, eq: string, fed: seq<real>)
    requires Tidy(s) && Apart(Register(s, x)) && WindowIs(s, eq, fed)
    ensures
      var r := Register(s, x);
      Tidy(r) && WindowIs(r, eq, if eq in s.breakers then fed else [])
      && (x.equipmentId in r.breakers && x.equipmentId !in s.breakers ==>
            r.breakers[x.equipmentId].profile.sensorId == x.sensorId)
  {
    var r := Register(s, x);
    RegisterAgrees(s, x);
    if r != s && x.equipmentId in r.breakers {
      AddBreakerTidy(s, r, x.equipmentId);
      NoStaleWindow(s, r, x.equipmentId);
      if eq in s.breakers {
        assert r.breakers[eq] == s.breakers[eq];
      }
    }
  }

  /** Steps that add or remove no breaker, change no sensor, and add no window but one's own stay tidy. */
  lemma StaysTidy(s: DetectorState, t: DetectorState, owner: string)
    requires Tidy(s) && Agrees(t) && t.breakers.Keys == s.breakers.Keys
    requires forall e :: e in s.breakers ==> t.breakers[e].profile == s.breakers[e].profile
    requires forall k :: k in t.windows ==> k in s.windows || (owner in s.breakers && k == KeyOf(s, owner))
    ensures Tidy(t)
  {
    assert forall e :: e in s.breakers ==> KeyOf(t, e) == KeyOf(s, e);
    forall k | k in t.windows ensures exists e :: e in t.breakers && k == KeyOf(t, e) {
      if k in s.windows {
        var e :| e in s.breakers && k == KeyOf(s, e);
        assert k == KeyOf(t, e);
      } else {
        assert k == KeyOf(t, owner);
      }
    }
  }

  lemma FeedTidy(s: DetectorState, x: Sample)
    requires Tidy(s) && x.equipmentId in s.breakers
    requires OwnSensor(s, x)
    ensures Tidy(Feed(s, x))
  {
    FeedAgrees(s, x);
    StaysTidy(s, Feed(s, x), x.equipmentId);
  }

  lemma FeedOwn(s: DetectorState, x: Sample, fed: seq<real>)
    requires x.equipmentId in s.breakers && WindowIs(s, x.equipmentId, fed)
    requires OwnSensor(s, x)
    ensures WindowIs(Feed(s, x), x.equipmentId, fed + [x.value])
    ensures NextWindow(s, s.breakers[x.equipmentId], x) == Last(fed + [x.value], WINDOW_SIZE)
  {
    PushLast(fed, x.value);
  }

  lemma FeedKeeps(s: DetectorState, x: Sample, eq: string)
    requires x.equipmentId in s.breakers && eq != x.equipmentId
    ensures eq in s.breakers <==> eq in Feed(s, x).breakers
    ensures eq in s.breakers ==> Feed(s, x).breakers[eq] == s.breakers[eq]
  {
  }

  lemma FeedOther(s: DetectorState, x: Sample, eq: string, fed: seq<real>)
    requires x.equipmentId in s.breakers && WindowIs(s, eq, fed) && eq != x.equipmentId
    requires OwnSensor(s, x)
    requires eq in s.breakers ==> KeyOf(s, eq) != KeyOf(s, x.equipmentId)
    ensures WindowIs(Feed(s, x), eq, fed)
  {
    FeedKeeps(s, x, eq);
    if eq in s.breakers {
      assert KeyOf(Feed(s, x), eq) == KeyOf(s, eq);
      assert Key(x.equipmentId, SensorOf(s.breakers[x.equipmentId], x)) == KeyOf(s, x.equipmentId);
    }
  }

  lemma FedOfSample(s: DetectorState, x: Sample, eq: string, fed: seq<real>)
    requires eq in Process(s, x).breakers
    ensures
      var f := if eq in s.breakers then fed else [];
      FedStep(s, Telemetered(x), eq, fed) == if x.equipmentId == eq then f + [x.value] else f
  {
  }

  lemma SampleWindows(s: DetectorState, x: Sample, eq: string, fed: seq<real>)
    requires Tidy(s) && Disciplined(s, Telemetered(x)) && WindowIs(s, eq, fed)
    ensures Tidy(Process(s, x)) && WindowIs(Process(s, x), eq, FedStep(s, Telemetered(x), eq, fed))
  {
    RegisterWindows(s, x, eq, fed);
    var r, f, t := Register(s, x), if eq in s.breakers then fed else [], Process(s, x);
    assert x.equipmentId in r.breakers ==> OwnSensor(r, x);
    if eq in t.breakers {
      FedOfSample(s, x, eq, fed);
    }
    if x.equipmentId in r.breakers {
      FeedTidy(r, x);
      if eq == x.equipmentId {
        FeedOwn(r, x, f);
      } else {
        FeedOther(r, x, eq, f);
      }
    }
  }

  /** Removing the windows of removed breakers removes no other breaker's window. */
  lemma StaleKeys(s: DetectorState, loaded: map<string, Profile>, eq: string)
    requires Tidy(s) && eq in s.breakers && eq in loaded
    ensures KeyOf(s, eq) !in WindowKeys(s.breakers, s.breakers.Keys - loaded.Keys)
  {
  }

  lemma ReloadTidy(s: DetectorState, graph: map<string, Profile>)
    requires Tidy(s) && Disciplined(s, Reload(graph))
    ensures Tidy(DoReload(s, Loaded(graph)))
  {
    var loaded := Loaded(graph);
    var t := DoReload(s, loaded);
    ReloadAgrees(s, loaded);
    forall k | k in t.windows ensures exists e :: e in t.breakers && k == KeyOf(t, e) {
      var e :| e in s.breakers && k == KeyOf(s, e);
      assert e in loaded;
      assert k == KeyOf(t, e);
    }
  }

  /** A breaker that a reload adds finds no window, not even that of a removed breaker with the same key. */
  lemma NewKeyIsFree(s: DetectorState, graph: map<string, Profile>, eq: string)
    requires Tidy(s) && Disciplined(s, Reload(graph)) && eq in Loaded(graph) && eq !in s.breakers
    ensures Key(eq, Loaded(graph)[eq].sensorId) !in DoReload(s, Loaded(graph)).windows
  {
    var t := DoReload(s, Loaded(graph));
    var key := KeyOf(t, eq);
    forall e | e in s.breakers && e in Loaded(graph) ensures KeyOf(s, e) != key {
      assert KeyOf(t, e) == KeyOf(s, e);
    }
  }

  lemma ReloadWindows(s: DetectorState, graph: map<string, Profile>, eq: string, fed: seq<real>)
    requires Tidy(s) && Disciplined(s, Reload(graph)) && WindowIs(s, eq, fed)
    ensures WindowIs(DoReload(s, Loaded(graph)), eq, FedStep(s, Reload(graph), eq, fed))
  {
    var loaded := Loaded(graph);
    if eq in loaded {
      if eq in s.breakers {
        StaleKeys(s, loaded, eq);
      } else {
        NewKeyIsFree(s, graph, eq);
      }
    }
  }

  lemma ResetTidy(s: DetectorState, target: Option<string>)
    requires Tidy(s)
    ensures Tidy(DoReset(s, target))
  {
    ResetAgrees(s, target);
    StaysTidy(s, DoReset(s, target), "");
  }

  lemma TargetKeysApart(s: DetectorState, targets: set<string>, eq: string)
    requires Tidy(s) && eq in s.breakers && targets <= s.breakers.Keys
    ensures KeyOf(s, eq) in WindowKeys(s.breakers, targets) <==> eq in targets
  {
    if KeyOf(s, eq) in WindowKeys(s.breakers, targets) {
      var e :| e in targets && KeyOf(s, eq) == KeyOf(s, e);
    }
  }

  lemma ResetWindows(s: DetectorState, target: Option<string>, eq: string, fed: seq<real>)
    requires Tidy(s) && WindowIs(s, eq, fed)
    ensures WindowIs(DoReset(s, target), eq, FedStep(s, Input.Reset(target), eq, fed))
  {
    if eq in s.breakers && !(target.Some? && target.value !in s.breakers) {
      TargetKeysApart(s, Targets(s, target), eq);
      ClearedAt(s, target, eq);
    }
  }

  lemma ClearedAt(s: DetectorState, target: Option<string>, eq: string)
    requires eq in s.breakers && !(target.Some? && target.value !in s.breakers)
    requires KeyOf(s, eq) in WindowKeys(s.breakers, Targets(s, target)) <==> eq in Targets(s, target)
    ensures
      var t := DoReset(s, target);
      eq in t.breakers && KeyOf(t, eq) == KeyOf(s, eq)
      && (if Resets(s, Input.Reset(target), eq)
          then Lookup(t.windows, KeyOf(s, eq)) == [] && t.breakers[eq].recent == []
          else Lookup(t.windows, KeyOf(s, eq)) == Lookup(s.windows, KeyOf(s, eq)) && t.breakers[eq] == s.breakers[eq])
  {
  }

  lemma StepWindows(s: DetectorState, i: Input, eq: string, fed: seq<real>)
    requires Tidy(s) && Disciplined(s, i) && WindowIs(s, eq, fed)
    ensures Tidy(Step(s, i)) && WindowIs(Step(s, i), eq, FedStep(s, i, eq, fed))
  {
    match i
    case Telemetered(x) => SampleWindows(s, x, eq, fed);
    case Reload(graph) =>
      ReloadTidy(s, graph);
      ReloadWindows(s, graph, eq, fed);
    case Reset(target) =>
      ResetTidy(s, target);
      ResetWindows(s, target, eq, fed);
  }

  /** Along every disciplined run, the window of a breaker is the last 30 values fed to it since its last
      reset or registration, it equals the breaker's recent values, and the timestamp window has the
      same length. */
  lemma {:induction false} WindowsAreRecent(inputs: seq<Input>, eq: string)
    requires DisciplinedRun(inputs)
    ensures Tidy(Run(inputs)) && WindowIs(Run(inputs), eq, Fed(inputs, eq))
    ensures eq in Run(inputs).breakers ==>
      |Lookup(Run(inputs).windows, KeyOf(Run(inputs), eq))| == Min(WINDOW_SIZE, |Fed(inputs, eq)|)
      == |Lookup(Run(inputs).stamps, KeyOf(Run(inputs), eq))|
  {
    if inputs != [] {
      var init := inputs[..|inputs| - 1];
      WindowsAreRecent(init, eq);
      StepWindows(Run(init), inputs[|inputs| - 1], eq, Fed(init, eq));
    }
  }

  // ---------------------------------------------------------------- why keys must be apart

  /** Every breaker's window is its recent values, and not full. */
  ghost predicate WindowsMatch(s: DetectorState) {
    forall eq :: eq in s.breakers ==> Lookup(s.windows, KeyOf(s, eq)) == s.breakers[eq].recent
  }

  ghost predicate NoneFull(s: DetectorState) {
    forall eq :: eq in s.breakers ==> |s.breakers[eq].recent| < WINDOW_SIZE
  }

  lemma FeedMatchesOwn(s: DetectorState, x: Sample)
    requires WindowsMatch(s) && Apart(s) && x.equipmentId in s.breakers && OwnSensor(s, x)
    ensures WindowsMatch(Feed(s, x))
  {
    var t := Feed(s, x);
    forall eq | eq in t.breakers ensures Lookup(t.windows, KeyOf(t, eq)) == t.breakers[eq].recent {
      assert KeyOf(t, eq) == KeyOf(s, eq);
      assert Key(x.equipmentId, SensorOf(s.breakers[x.equipmentId], x)) == KeyOf(s, x.equipmentId);
      if eq != x.equipmentId { FeedKeeps(s, x, eq); }
    }
  }

  /** The next sample of one of two monitors with the same key enters the window of the other. */
  lemma SharedKeyMixes(s: DetectorState, x: Sample, other: string)
    requires x.equipmentId in s.breakers && OwnSensor(s, x) && other in s.breakers && other != x.equipmentId
    requires KeyOf(s, other) == KeyOf(s, x.equipmentId)
    ensures
      var t := Feed(s, x);
      && other in t.breakers && t.breakers[other] == s.breakers[other]
      && Lookup(t.windows, KeyOf(t, other)) == Push(Lookup(s.windows, KeyOf(s, other)), x.value)
  {
    FeedKeeps(s, x, other);
    assert Key(x.equipmentId, SensorOf(s.breakers[x.equipmentId], x)) == KeyOf(s, x.equipmentId);
  }

  /** The condition is exact: while no window is full, windows go on matching the recent values, whichever
      monitor is sampled next, if and only if no two monitors share a key. */
  lemma MatchIffApart(s: DetectorState)
    requires WindowsMatch(s) && NoneFull(s)
    ensures Apart(s) <==>
      forall x: Sample :: x.equipmentId in s.breakers && OwnSensor(s, x) ==> WindowsMatch(Feed(s, x))
  {
    if Apart(s) {
      forall x: Sample | x.equipmentId in s.breakers && OwnSensor(s, x) ensures WindowsMatch(Feed(s, x)) {
        FeedMatchesOwn(s, x);
      }
    } else {
      var e1, e2 :| e1 in s.breakers && e2 in s.breakers && KeyOf(s, e1) == KeyOf(s, e2) && e1 != e2;
      var x := Unmatching(s, e1, e2);
    }
  }

  lemma Unmatching(s: DetectorState, eq: string, other: string) returns (x: Sample)
    requires WindowsMatch(s) && NoneFull(s) && eq in s.breakers && other in s.breakers && eq != other
    requires KeyOf(s, other) == KeyOf(s, eq)
    ensures x.equipmentId in s.breakers && OwnSensor(s, x) && !WindowsMatch(Feed(s, x))
  {
    x := Sample(eq, "", 0.0, Labels("", "", ""), 0.0, 0.0);
    SharedKeyMixes(s, x, other);
    assert |Lookup(s.windows, KeyOf(s, other))| < WINDOW_SIZE;
    assert Lookup(Feed(s, x).windows, KeyOf(Feed(s, x), other)) != s.breakers[other].recent;
  }

  /** Monitors whose ids have no colon never share a key. */
  lemma PlainIdsApart(s: DetectorState)
    requires forall eq :: eq in s.breakers ==> ':' !in eq
    ensures Apart(s)
  {
    forall e1, e2 | e1 in s.breakers && e2 in s.breakers && KeyOf(s, e1) == KeyOf(s, e2) ensures e1 == e2 {
      PlainKeys(e1, s.breakers[e1].profile.sensorId, e2, s.breakers[e2].profile.sensorId);
    }
  }

  lemma PlainKeys(e1: string, s1: string, e2: string, s2: string)
    requires ':' !in e1 && ':' !in e2 && Key(e1, s1) == Key(e2, s2)
    ensures e1 == e2
  {
    var k := Key(e1, s1);
    assert k[|e1|] == ':' && k[|e2|] == ':';
    assert forall i :: 0 <= i < |e1| ==> k[i] == e1[i];
    assert forall i :: 0 <= i < |e2| ==> k[i] == e2[i];
    assert k[..|e1|] == e1 && k[..|e2|] == e2;
  }

  /** A run that goes wrong: when two monitors whose keys coincide register themselves, the window of the
      second holds the value of the first. */
  lemma CollidingRun(x: Sample, y: Sample)
    requires x.equipmentId != y.equipmentId && "" !in {x.equipmentId, y.equipmentId, x.sensorId, y.sensorId}
    requires Key(x.equipmentId, x.sensorId) == Key(y.equipmentId, y.sensorId)
    ensures
      var inputs, eq := [Telemetered(x), Telemetered(y)], y.equipmentId;
      var t := Run(inputs);
      && eq in t.breakers && Lookup(t.windows, KeyOf(t, eq)) == [x.value, y.value]
      && t.breakers[eq].recent == [y.value] == Fed(inputs, eq)
  {
    var inputs := [Telemetered(x), Telemetered(y)];
    RunOfTwo(inputs);
    SecondSample(x, y);
    FedOfSample(Process(INITIAL, x), y, y.equipmentId, Fed([inputs[0]], y.equipmentId));
  }

  lemma SecondSample(x: Sample, y: Sample)
    requires x.equipmentId != y.equipmentId && "" !in {x.equipmentId, y.equipmentId, x.sensorId, y.sensorId}
    requires Key(x.equipmentId, x.sensorId) == Key(y.equipmentId, y.sensorId)
    ensures
      var s, t, eq := Process(INITIAL, x), Process(Process(INITIAL, x), y), y.equipmentId;
      && eq !in s.breakers && eq in t.breakers && t.breakers[eq].recent == [y.value]
      && Lookup(t.windows, KeyOf(t, eq)) == [x.value, y.value]
  {
    FirstSample(INITIAL, x);
    assert Process(INITIAL, x).windows[Key(x.equipmentId, x.sensorId)] == Push([], x.value) == [x.value];
    FirstSample(Process(INITIAL, x), y);
    assert Push([x.value], y.value) == [x.value, y.value];
  }

  /** There are such monitors. */
  lemma KeysCanCollide(v: real, w: real, labels: Labels) returns (x: Sample, y: Sample)
    ensures x.value == v && y.value == w && x.equipmentId != y.equipmentId
    ensures
      var t := Run([Telemetered(x), Telemetered(y)]);
      y.equipmentId in t.breakers && Lookup(t.windows, KeyOf(t, y.equipmentId)) == [v, w]
      && Fed([Telemetered(x), Telemetered(y)], y.equipmentId) == [w]
  {
    x, y := Sample("A:B", "C", v, labels, 0.0, 0.0), Sample("A", "B:C", w, labels, 1.0, 0.0);
    assert Key("A:B", "C") == Key("A", "B:C");
    CollidingRun(x, y);
  }

  lemma RunOfTwo(inputs: seq<Input>)
    requires |inputs| == 2
    ensures Run(inputs) == Step(Step(INITIAL, inputs[0]), inputs[1])
    ensures forall eq :: Fed(inputs, eq) == FedStep(Step(INITIAL, inputs[0]), inputs[1], eq, Fed([inputs[0]], eq))
  {
    assert inputs[..1] == [inputs[0]];
    assert [inputs[0]][..0] == [];
    assert Run([inputs[0]]) == Step(INITIAL, inputs[0]);
  }

  /** The first sample of an unknown equipment. */
  lemma FirstSample(s: DetectorState, x: Sample)
    requires x.equipmentId !in s.breakers && x.equipmentId !in s.profiles && x.equipmentId !in s.tried
    requires x.equipmentId != "" && x.sensorId != ""
    ensures
      var t, eq, key := Process(s, x), x.equipmentId, Key(x.equipmentId, x.sensorId);
      && t.breakers.Keys == s.breakers.Keys + {eq} && t.profiles.Keys == s.profiles.Keys + {eq}
      && t.tried == s.tried + {eq}
      && t.breakers[eq].profile.sensorId == x.sensorId && t.breakers[eq].recent == [x.value]
      && t.windows == s.windows[key := Push(Lookup(s.windows, key), x.value)]
  {
  }
}
